/**
 * Address files: one `host:port` line per host, with consecutive ports.
 * Both the remote and the local driver write their `ip_file` this way.
 */
module Addresses {
  import opened Text

  /** `host:port`. */
  function AddressLine(host: string, port: int): string
  {
    host + ":" + IntToString(port)
  }

  /** One line per host, with consecutive ports from `base`. */
  function PortLines(hosts: seq<string>, base: int): seq<string>
  {
    seq(|hosts|, x requires 0 <= x < |hosts| => AddressLine(hosts[x], base + x))
  }

  lemma PortLinesSnoc(hosts: seq<string>, base: int, x: nat)
    requires x < |hosts|
    ensures Terminated(PortLines(hosts[..x + 1], base)) == Terminated(PortLines(hosts[..x], base)) + AddressLine(hosts[x], base + x) + "\n"
  {
    assert PortLines(hosts[..x + 1], base) == PortLines(hosts[..x], base) + [AddressLine(hosts[x], base + x)];
    TerminatedSnoc(PortLines(hosts[..x], base), AddressLine(hosts[x], base + x));
  }

  /** The text of the first `x` lines, then line `x`: the text of the first `x + 1` lines. */
  lemma PortLinesStep(hosts: seq<string>, base: int, x: nat, host: string, text: string)
    requires x < |hosts| && hosts[x] == host && text == Terminated(PortLines(hosts[..x], base))
    ensures text + AddressLine(host, base + x) + "\n" == Terminated(PortLines(hosts[..x + 1], base))
  {
    PortLinesSnoc(hosts, base, x);
  }

  lemma IntToStringNoNewline(i: int)
    ensures NoNewline(IntToString(i))
  {
    var d := NatToString(if i < 0 then -i else i);
    assert forall k :: 0 <= k < |d| ==> IsDigit(d[k]);
  }

  lemma PortLinesNoNewline(hosts: seq<string>, base: int)
    requires forall x :: 0 <= x < |hosts| ==> NoNewline(hosts[x])
    ensures forall x :: 0 <= x < |hosts| ==> NoNewline(PortLines(hosts, base)[x])
  {
    forall x | 0 <= x < |hosts|
      ensures NoNewline(PortLines(hosts, base)[x])
    {
      IntToStringNoNewline(base + x);
    }
  }

  /** Read back line by line, the lines of hosts without newlines are the `host:port` lines, one per host. */
  lemma PortLinesRead(hosts: seq<string>, base: int)
    requires forall x :: 0 <= x < |hosts| ==> NoNewline(hosts[x])
    ensures var lines := SplitLines(Terminated(PortLines(hosts, base)));
      && |lines| == |hosts|
      && forall x :: 0 <= x < |hosts| ==> lines[x] == hosts[x] + ":" + IntToString(base + x)
  {
    PortLinesSplit(hosts, base);
    PortLinesAt(hosts, base);
  }

  lemma PortLinesSplit(hosts: seq<string>, base: int)
    requires forall x :: 0 <= x < |hosts| ==> NoNewline(hosts[x])
    ensures SplitLines(Terminated(PortLines(hosts, base))) == PortLines(hosts, base)
  {
    PortLinesNoNewline(hosts, base);
    SplitTerminated(PortLines(hosts, base));
  }

  lemma PortLinesAt(hosts: seq<string>, base: int)
    ensures forall x :: 0 <= x < |hosts| ==> PortLines(hosts, base)[x] == hosts[x] + ":" + IntToString(base + x)
  {
    forall x | 0 <= x < |hosts|
      ensures PortLines(hosts, base)[x] == hosts[x] + ":" + IntToString(base + x)
    {
      var port := base + x;
      assert PortLines(hosts, base)[x] == AddressLine(hosts[x], port);
    }
  }
}
