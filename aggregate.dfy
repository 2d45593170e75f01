/**
 * `scripts/aggregate.py`: a pasted column of `N bytes: X ms` lines is read
 * line by line into `size_to_times`, and one row per message size is
 * printed in ascending size order: the size, the average time and the
 * number of lines of that size. Lines for 256-byte messages are skipped.
 *
 * The pasted column is a parameter; the two header lines and the `%`
 * formatting of the rows are printing and are left out.
 */
module Aggregate {
  import opened Wrappers
  import opened Text
  import opened LogFormats
  import opened Grouping
  import opened Sorting
  import opened Effects
  import opened LineReadings

  // ----------------------------------------------------------------- strip

  predicate AllSpace(s: string) { forall k :: 0 <= k < |s| ==> IsSpace(s[k]) }

  function StripStart(s: string): string
  {
    if s != [] && IsSpace(s[0]) then StripStart(s[1..]) else s
  }

  function StripEnd(s: string): string
  {
    if s != [] && IsSpace(s[|s| - 1]) then StripEnd(s[..|s| - 1]) else s
  }

  /** `str.strip()`. */
  function Strip(s: string): string
  {
    StripEnd(StripStart(s))
  }

  lemma {:induction false} StripStartAt(s: string) returns (i: nat)
    ensures i <= |s| && StripStart(s) == s[i..] && AllSpace(s[..i])
    ensures StripStart(s) == [] || !IsSpace(StripStart(s)[0])
    decreases |s|
  {
    if s != [] && IsSpace(s[0]) {
      var j := StripStartAt(s[1..]);
      i := j + 1;
      assert s[1..][j..] == s[i..];
      forall k | 0 <= k < i ensures IsSpace(s[..i][k]) {
        if k > 0 { assert s[..i][k] == s[1..][..j][k - 1]; }
      }
    } else {
      i := 0;
    }
  }

  lemma {:induction false} StripEndAt(s: string) returns (j: nat)
    ensures j <= |s| && StripEnd(s) == s[..j] && AllSpace(s[j..])
    ensures StripEnd(s) == [] || !IsSpace(StripEnd(s)[|StripEnd(s)| - 1])
    decreases |s|
  {
    if s != [] && IsSpace(s[|s| - 1]) {
      j := StripEndAt(s[..|s| - 1]);
      assert s[..|s| - 1][..j] == s[..j];
      forall k | 0 <= k < |s| - j ensures IsSpace(s[j..][k]) {
        if j + k < |s| - 1 { assert s[j..][k] == s[..|s| - 1][j..][k]; }
      }
    } else {
      j := |s|;
    }
  }

  /**
   * Stripping removes whitespace from both ends and nothing else: the
   * result is a slice of the input that neither starts nor ends with
   * whitespace, and what was cut off is all whitespace.
   */
  lemma StripSpec(s: string) returns (i: nat, j: nat)
    ensures i <= j <= |s| && Strip(s) == s[i..j]
    ensures AllSpace(s[..i]) && AllSpace(s[j..])
    ensures Strip(s) != [] ==> !IsSpace(Strip(s)[0]) && !IsSpace(Strip(s)[|Strip(s)| - 1])
  {
    i := StripStartAt(s);
    var t := s[i..];
    var e := StripEndAt(t);
    j := i + e;
    assert t[..e] == s[i..j];
    assert t[e..] == s[j..];
    if e > 0 && StripEnd(t) != [] {
      assert StripEnd(t)[0] == t[0];
    }
  }

  // ------------------------------------------------------------- the lines

  /**
   * A line starting with `256 bytes` is skipped outright, and so is a line
   * the pattern does not match; otherwise the size and `float` of the time
   * text, which raises `ValueError` on text such as `1.2.3`.
   */
  function ReadLine(line: string): Reading
  {
    if StartsWith(line, "256 bytes") then Skipped
    else
      match MatchSizeLine(line)
      case None => Skipped
      case Some((size, time)) =>
        match ParseDecimal(time)
        case None => NotANumber
        case Some(ms) => Time(DigitsValue(size), ms)
  }

  /** What each line contributes, line by line. */
  function Readings(lines: seq<string>): (rs: seq<Reading>)
    ensures |rs| == |lines|
  {
    seq(|lines|, k requires 0 <= k < |lines| => ReadLine(lines[k]))
  }

  // -------------------------------------------------------------- the rows

  /** One printed row: size, average time, number of lines. */
  datatype Row = Row(size: int, average: real, count: nat)

  function RowOf(d: Dict<int, seq<real>>, size: int): Row
    requires size in d.entries
  {
    Row(size, Mean(d.entries[size]), |d.entries[size]|)
  }

  /** `for size in sorted(size_to_times)`: one row per size, ascending. */
  function Rows(d: Dict<int, seq<real>>): seq<Row>
    requires forall k :: k in d.keys ==> k in d.entries
  {
    var sizes := Sort(d.keys);
    SortProperties(d.keys);
    seq(|sizes|, i requires 0 <= i < |sizes| => (assert sizes[i] in multiset(d.keys); RowOf(d, sizes[i])))
  }

  /** The rows the script prints for the pasted column `raw`, or the error it stops with. */
  function Report(raw: string): Result<seq<Row>, Error>
  {
    match Collect(Readings(SplitLines(Strip(raw))))
    case Failure(e) => Failure(e)
    case Success(pairs) =>
      GroupSpec(pairs);
      Success(Rows(Group(pairs)))
  }

  /** The script itself: read the lines, then print the rows. */
  method Aggregate(raw: string) returns (r: Result<seq<Row>, Error>)
    ensures r == Report(raw)
  {
    var lines := SplitLines(Strip(raw));
    var collected := CollectTimes(lines);
    if collected.Failure? {
      return Failure(collected.error);
    }
    GroupSpec(Collect(Readings(lines)).value);
    var rows := PrintRows(collected.value);
    r := Success(rows);
  }

  /** The reading loop: `size_to_times` grouped by size, or the `ValueError`. */
  method CollectTimes(lines: seq<string>) returns (r: Result<Dict<int, seq<real>>, Error>)
    ensures r.Success? <==> Collect(Readings(lines)).Success?
    ensures r.Success? ==> r.value == Group(Collect(Readings(lines)).value)
    ensures r.Failure? ==> r.error == Collect(Readings(lines)).error
  {
    ghost var rs := Readings(lines);
    var sizeToTimes: Dict<int, seq<real>> := Empty();
    var k := 0;
    while k < |lines|
      invariant 0 <= k <= |lines|
      invariant Collect(rs[..k]).Success?
      invariant sizeToTimes == Group(Collect(rs[..k]).value)
    {
      var line := lines[k];
      CollectNext(rs, k);
      assert rs[k] == ReadLine(line);
      if !StartsWith(line, "256 bytes") {
        var m := MatchSizeLine(line);
        if m.Some? {
          var size := DigitsValue(m.value.0);
          var time := ParseDecimal(m.value.1);
          if time.None? {
            CollectStops(rs, k + 1);
            assert rs[..|rs|] == rs;
            return Failure(ValueError);
          }
          sizeToTimes := AppendTo(sizeToTimes, size, time.value);
        }
      }
      k := k + 1;
    }
    assert rs[..k] == rs;
    r := Success(sizeToTimes);
  }

  /** The printing loop: one row per size in ascending order. */
  method PrintRows(d: Dict<int, seq<real>>) returns (rows: seq<Row>)
    requires forall k :: k in d.keys ==> k in d.entries && d.entries[k] != []
    ensures rows == Rows(d)
  {
    var sizes := Sort(d.keys);
    SortProperties(d.keys);
    rows := [];
    var i := 0;
    while i < |sizes|
      invariant 0 <= i <= |sizes|
      invariant rows == Rows(d)[..i]
    {
      var size := sizes[i];
      assert size in multiset(d.keys);
      var times := d.entries[size];
      var average := RealSum(times) / (|times| as real);
      rows := rows + [Row(size, average, |times|)];
      i := i + 1;
    }
  }

  // ------------------------------------------------------------ properties

  /** A line of digits followed by a space starts with `256 bytes` only if its digits are `256`. */
  lemma Starts256(d: string, line: string)
    requires AllDigits(d) && |d| < |line| && line[..|d|] == d && line[|d|] == ' '
    requires StartsWith(line, "256 bytes")
    ensures d == "256"
  {
    assert line[..9] == "256 bytes";
    assert line[0] == '2' && line[1] == '5' && line[2] == '6' && line[3] == ' ';
    assert forall k :: 0 <= k < |d| ==> IsDigit(line[k]);
    assert |d| == 3;
    assert d == line[..3];
  }

  /** `str(256)`, digit by digit. */
  lemma NatToString256()
    ensures NatToString(256) == "256"
  {
    assert NatToString(2) == "2";
    assert NatToString(25) == NatToString(2) + [DigitChar(5)] == "25";
    assert NatToString(256) == NatToString(25) + [DigitChar(6)];
  }

  /** The printed line for 256-byte messages starts with `256 bytes`. */
  lemma Printed256(time: string)
    ensures StartsWith("256" + " bytes: " + time + " ms", "256 bytes")
  {
    var line := "256" + " bytes: " + time + " ms";
    assert line[..9] == "256 bytes";
  }

  /**
   * A printed line reads back as its size and time; a line for 256 bytes
   * is skipped.
   */
  lemma ReadPrinted(size: nat, time: string)
    requires ValidDecimalText(time)
    ensures ReadLine(NatToString(size) + " bytes: " + time + " ms")
      == if size == 256 then Skipped
         else if ParseDecimal(time).None? then NotANumber
         else Time(size, ParseDecimal(time).value)
  {
    var line := NatToString(size) + " bytes: " + time + " ms";
    if size == 256 {
      NatToString256();
      Printed256(time);
    } else {
      PrintedNot256(size, time);
      MatchSizeLineRendered(size, time, []);
      assert line + [] == line;
      DigitsValueOfNatToString(size);
    }
  }

  /** The printed line for any other size does not start with `256 bytes`. */
  lemma PrintedNot256(size: nat, time: string)
    requires size != 256
    ensures !StartsWith(NatToString(size) + " bytes: " + time + " ms", "256 bytes")
  {
    var d := NatToString(size);
    var line := d + " bytes: " + time + " ms";
    if StartsWith(line, "256 bytes") {
      assert line[..|d|] == d && line[|d|] == ' ';
      Starts256(d, line);
      NatToString256();
      NatToStringInjective(size, 256);
    }
  }

  /**
   * The printed rows: sizes strictly ascending, one row for each size
   * that occurs, and each row's count and average those of the times
   * read for its size.
   */
  lemma RowsSpec(pairs: seq<(int, real)>)
    ensures forall k :: k in Group(pairs).keys ==> k in Group(pairs).entries
    ensures var rows := Rows(Group(pairs));
      && (forall i, j :: 0 <= i < j < |rows| ==> rows[i].size < rows[j].size)
      && (forall size :: HasKey(pairs, size) <==> exists i :: 0 <= i < |rows| && rows[i].size == size)
      && (forall i :: 0 <= i < |rows| ==>
            var times := Select(pairs, rows[i].size);
            rows[i].count == |times| > 0 && rows[i].average == RealSum(times) / (|times| as real))
  {
    GroupSpec(pairs);
    var d := Group(pairs);
    var rows := Rows(d);
    var sizes := Sort(d.keys);
    SortDistinct(d.keys);
    assert |rows| == |sizes|;
    assert forall i :: 0 <= i < |rows| ==> rows[i].size == sizes[i];
    forall size
      ensures HasKey(pairs, size) <==> exists i :: 0 <= i < |rows| && rows[i].size == size
    {
      if HasKey(pairs, size) {
        assert size in sizes;
        var i :| 0 <= i < |sizes| && sizes[i] == size;
        assert rows[i].size == size;
      }
    }
  }
}
