/**
 * Host selection of the remote benchmark (`Bench._select_hosts` in
 * benchmark/benchmark/remote.py). The testbed manager lists its hosts per
 * region, in the order of its dictionary; a region is a sequence of
 * addresses.
 */
module HostSelection {

  /** Python's `s[:stop]`, including a negative `stop` counted from the end. */
  function PyPrefix<T>(s: seq<T>, stop: int): (r: seq<T>)
    ensures |r| <= |s| && r == s[..|r|]
    ensures 0 <= stop <= |s| ==> |r| == stop
    ensures stop >= |s| ==> r == s
    ensures stop < 0 ==> |r| == if |s| + stop < 0 then 0 else |s| + stop
  {
    if stop >= |s| then s
    else if stop >= 0 then s[..stop]
    else if |s| + stop < 0 then []
    else s[..|s| + stop]
  }

  /** `sum(len(x) for x in hosts.values())`. */
  function TotalHosts(regions: seq<seq<string>>): nat
  {
    if regions == [] then 0 else |regions[0]| + TotalHosts(regions[1..])
  }

  /** The length of the shortest region; `zip` stops there. */
  function MinLen(regions: seq<seq<string>>): (m: nat)
    requires |regions| > 0
    ensures forall r :: 0 <= r < |regions| ==> m <= |regions[r]|
    ensures exists r :: 0 <= r < |regions| && m == |regions[r]|
  {
    if |regions| == 1 then |regions[0]|
    else
      var m := MinLen(regions[1..]);
      assert forall r :: 1 <= r < |regions| ==> regions[r] == regions[1..][r - 1];
      if |regions[0]| <= m then |regions[0]| else m
  }

  /** The `j`-th tuple of `zip(*regions)`: the `j`-th host of every region. */
  function Column(regions: seq<seq<string>>, j: nat): seq<string>
    requires forall r :: 0 <= r < |regions| ==> j < |regions[r]|
  {
    seq(|regions|, r requires 0 <= r < |regions| => regions[r][j])
  }

  /** The first `k` tuples of `zip(*regions)`, flattened. */
  function Rows(regions: seq<seq<string>>, k: nat): seq<string>
    requires forall r :: 0 <= r < |regions| ==> k <= |regions[r]|
  {
    if k == 0 then [] else Rows(regions, k - 1) + Column(regions, k - 1)
  }

  /** `[x for y in zip(*regions) for x in y]`. */
  function Interleave(regions: seq<seq<string>>): seq<string>
  {
    if regions == [] then [] else Rows(regions, MinLen(regions))
  }

  /** Position `p` of the round-robin order: host `p / R` of region `p % R`. */
  function RoundRobin(regions: seq<seq<string>>, p: nat): string
  {
    var R := |regions|;
    if R > 0 && p / R < |regions[p % R]| then regions[p % R][p / R] else ""
  }

  lemma {:induction false} RowsShape(regions: seq<seq<string>>, k: nat)
    requires forall r :: 0 <= r < |regions| ==> k <= |regions[r]|
    ensures |Rows(regions, k)| == |regions| * k
    ensures forall p :: 0 <= p < |Rows(regions, k)| ==> Rows(regions, k)[p] == RoundRobin(regions, p)
    decreases k
  {
    if k > 0 {
      var R := |regions|;
      RowsShape(regions, k - 1);
      var prev := Rows(regions, k - 1);
      var col := Column(regions, k - 1);
      MulSucc(R, k - 1);
      assert |Rows(regions, k)| == R * k;
      forall p | 0 <= p < R * k
        ensures Rows(regions, k)[p] == RoundRobin(regions, p)
      {
        if p >= R * (k - 1) {
          var q := p - R * (k - 1);
          DivModOfRow(p, R, k - 1, q);
          assert Rows(regions, k)[p] == col[q];
          assert col[q] == regions[q][k - 1];
        } else {
          assert Rows(regions, k)[p] == prev[p];
        }
      }
    }
  }

  lemma MulSucc(R: int, j: int)
    ensures R * (j + 1) == R * j + R
  {
  }

  /** `p = j·R + q` with `0 <= q < R` fixes both the quotient and the remainder. */
  lemma DivModOfRow(p: int, R: int, j: int, q: int)
    requires R > 0 && j >= 0 && 0 <= q < R && p == R * j + q
    ensures p % R == q && p / R == j
  {
    var d := p / R;
    var m := p % R;
    assert p == R * d + m && 0 <= m < R;
    assert R * (j - d) == m - q;
    if j - d >= 1 {
      MulAtLeast(R, j - d);
      assert false;
    } else if j - d <= -1 {
      MulAtLeast(R, d - j);
      assert false;
    }
  }

  lemma MulAtLeast(R: int, a: int)
    requires R > 0 && a >= 1
    ensures R * a >= R
  {
  }

  /** The interleaving holds `#regions × shortest region` hosts, round-robin over the regions. */
  lemma InterleaveShape(regions: seq<seq<string>>)
    requires |regions| > 0
    ensures |Interleave(regions)| == |regions| * MinLen(regions)
    ensures forall p :: 0 <= p < |Interleave(regions)| ==> Interleave(regions)[p] == RoundRobin(regions, p)
  {
    RowsShape(regions, MinLen(regions));
  }

  /** The collocated policy: every node runs on its own host, regions taken round-robin. */
  function SelectCollocated(regions: seq<seq<string>>, nodes: nat): seq<string>
  {
    if TotalHosts(regions) < nodes then [] else PyPrefix(Interleave(regions), nodes)
  }

  lemma CollocatedNotEnough(regions: seq<seq<string>>, nodes: nat)
    requires TotalHosts(regions) < nodes
    ensures SelectCollocated(regions, nodes) == []
  {
  }

  /**
   * With enough hosts in total, the selection is the first `nodes` hosts of
   * the round-robin interleaving, and holds `min(nodes, #regions × shortest)`
   * of them, because `zip` stops at the shortest region.
   */
  lemma CollocatedSelection(regions: seq<seq<string>>, nodes: nat)
    requires |regions| > 0 && TotalHosts(regions) >= nodes
    ensures var sel := SelectCollocated(regions, nodes);
      var cap := |regions| * MinLen(regions);
      && |sel| == (if nodes <= cap then nodes else cap)
      && forall p :: 0 <= p < |sel| ==> sel[p] == RoundRobin(regions, p)
  {
    InterleaveShape(regions);
  }

  /**
   * Enough hosts in total does not mean enough hosts selected: two regions
   * of three and one host pass the check for three nodes and yield two.
   */
  lemma CollocatedShortRegion()
    ensures TotalHosts([["a", "b", "c"], ["d"]]) >= 3
    ensures SelectCollocated([["a", "b", "c"], ["d"]], 3) == ["a", "d"]
  {
    var regions := [["a", "b", "c"], ["d"]];
    assert MinLen(regions) == 1;
    assert Column(regions, 0) == ["a", "d"];
    assert Rows(regions, 1) == Rows(regions, 0) + Column(regions, 0);
  }

  /** Every region holds at least `size` hosts. */
  predicate AllRegionsHold(regions: seq<seq<string>>, size: nat)
  {
    forall r :: 0 <= r < |regions| ==> |regions[r]| >= size
  }

  /** The groups the separated policy selects, or none. */
  function Separated(regions: seq<seq<string>>, workers: nat, primaries: nat): seq<seq<string>>
  {
    if |regions| < primaries || !AllRegionsHold(regions, workers + 1) then []
    else seq(primaries, i requires 0 <= i < primaries => regions[i][..workers + 1])
  }

  /**
   * The separated policy: one group of `workers + 1` hosts per primary, each
   * group inside one region, regions in order. Every region, chosen or not,
   * must hold `workers + 1` hosts.
   */
  method SelectSeparated(regions: seq<seq<string>>, workers: nat, primaries: nat) returns (selected: seq<seq<string>>)
    ensures |regions| < primaries ==> selected == []
    ensures !AllRegionsHold(regions, workers + 1) ==> selected == []
    ensures |regions| >= primaries && AllRegionsHold(regions, workers + 1) ==>
      && |selected| == primaries
      && forall i :: 0 <= i < primaries ==> selected[i] == regions[i][..workers + 1]
    ensures selected == Separated(regions, workers, primaries)
  {
    if |regions| < primaries {
      return [];
    }
    var k := 0;
    while k < |regions|
      invariant 0 <= k <= |regions|
      invariant AllRegionsHold(regions[..k], workers + 1)
    {
      if |regions[k]| < workers + 1 {
        assert !AllRegionsHold(regions, workers + 1);
        return [];
      }
      assert regions[..k + 1] == regions[..k] + [regions[k]];
      k := k + 1;
    }
    assert regions[..k] == regions;
    selected := [];
    var chosen := regions[..primaries];
    var i := 0;
    while i < |chosen|
      invariant 0 <= i <= |chosen|
      invariant |selected| == i
      invariant forall j :: 0 <= j < i ==> selected[j] == regions[j][..workers + 1]
    {
      var ips := chosen[i][..workers + 1];
      selected := selected + [ips];
      i := i + 1;
    }
  }

  /** What `_select_hosts` returns, by policy. */
  datatype Selection = Flat(hosts: seq<string>) | Grouped(groups: seq<seq<string>>)

  predicate IsEmpty(s: Selection)
  {
    match s
    case Flat(h) => h == []
    case Grouped(g) => g == []
  }

  function Selected(regions: seq<seq<string>>, collocate: bool, workers: nat, nodes: nat): Selection
  {
    if collocate then Flat(SelectCollocated(regions, nodes)) else Grouped(Separated(regions, workers, nodes))
  }

  method SelectHosts(regions: seq<seq<string>>, collocate: bool, workers: nat, nodes: nat) returns (s: Selection)
    ensures s == Selected(regions, collocate, workers, nodes)
    ensures collocate ==> s == Flat(SelectCollocated(regions, nodes))
    ensures !collocate ==> s.Grouped?
    ensures !collocate && |regions| >= nodes && AllRegionsHold(regions, workers + 1) ==>
      |s.groups| == nodes && forall i :: 0 <= i < nodes ==> s.groups[i] == regions[i][..workers + 1]
    ensures !collocate && !(|regions| >= nodes && AllRegionsHold(regions, workers + 1)) ==> s.groups == []
  {
    if collocate {
      s := Flat(SelectCollocated(regions, nodes));
    } else {
      var g := SelectSeparated(regions, workers, nodes);
      s := Grouped(g);
    }
  }
}
