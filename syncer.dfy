/**
 * The benchmark syncer of `node/src/syncer.rs`: a coordinator that waits
 * until every replica is ALIVE, starts one reliable broadcast of a
 * zero-filled payload by sending START to every replica, collects the
 * COMPLETED messages, and logs the sorted completion latencies, or that
 * the replicas delivered different values.
 *
 * The network, the clock and `bincode` are parameters: a send appends to
 * `outbox`, the current time is passed to the handlers that read it, and
 * `serialize`/`deserialize` are functions the syncer does not look inside.
 * The log lines the benchmark scripts read are kept in `reports`.
 */
module Syncer {
  import opened Wrappers
  import opened RbcCommon
  import opened Sorting

  /** Milliseconds since the epoch, a Rust `u128`. */
  const U128Modulus: int := 0x1_0000_0000_0000_0000_0000_0000_0000_0000
  /** `usize` on the 64-bit hosts the benchmark runs on. */
  const U64Modulus: int := 0x1_0000_0000_0000_0000

  type Millis = t: int | 0 <= t < U128Modulus

  /**
   * `time - start_time` on `u128` in a release build (no overflow check):
   * the difference that, added to `b`, wraps round to `a`.
   */
  function WrapSub(a: Millis, b: Millis): (d: Millis)
    ensures (b + d) % U128Modulus == a
    ensures b <= a ==> d == a - b
    ensures a < b ==> d == a - b + U128Modulus
  {
    if b <= a then a - b else a - b + U128Modulus
  }

  /** `types::SyncState`; the syncer reacts to ALIVE and COMPLETED only. */
  datatype SyncState = Alive | Started | Completed | Start | Stop

  /** `types::SyncMsg`. */
  datatype SyncMsg = SyncMsg(sender: nat, state: SyncState, value: Bytes)

  /** `RBCSyncMsg`, the payload of START and COMPLETED. */
  datatype RbcSyncMsg = RbcSyncMsg(id: nat, msg: Bytes)

  /** One `net_send.send(replica, msg)`. */
  datatype Outgoing = Outgoing(to: nat, msg: SyncMsg)

  /** What the syncer logs once every replica has completed. */
  datatype Report =
    | MissingStart(id: nat)
    | Diverged(id: nat, values: set<Bytes>)
    | AllCompleted(id: nat, latencies: seq<int>)

  /** The sends of one `broadcast`: replicas `0..n-1`, in order. */
  function ToAll(n: nat, msg: SyncMsg): (out: seq<Outgoing>)
    ensures |out| == n && forall r :: 0 <= r < n ==> out[r] == Outgoing(r, msg)
  {
    seq(n, r requires 0 <= r < n => Outgoing(r, msg))
  }

  /** `order` lists the keys of a map once each, in some iteration order. */
  ghost predicate Enumerates(order: seq<nat>, keys: set<nat>)
  {
    && (forall i, j :: 0 <= i < j < |order| ==> order[i] != order[j])
    && (forall k :: k in order <==> k in keys)
  }

  /** The latencies `completion - start`, in the order `order` lists the replicas. */
  function Diffs(times: map<nat, Millis>, start: Millis, order: seq<nat>): (d: seq<int>)
    requires forall i :: 0 <= i < |order| ==> order[i] in times
    ensures |d| == |order| && forall i :: 0 <= i < |order| ==> d[i] == WrapSub(times[order[i]], start)
  {
    seq(|order|, i requires 0 <= i < |order| => WrapSub(times[order[i]], start))
  }

  /** Every finite set of replicas can be iterated. */
  lemma {:induction false} HasEnumeration(keys: set<nat>)
    ensures exists order :: Enumerates(order, keys)
    decreases |keys|
  {
    if keys == {} {
      assert Enumerates([], keys);
    } else {
      var k :| k in keys;
      HasEnumeration(keys - {k});
      var order :| Enumerates(order, keys - {k});
      assert Enumerates(order + [k], keys);
    }
  }

  /** An iteration visits as many replicas as there are keys. */
  lemma {:induction false} EnumerationLength(order: seq<nat>, keys: set<nat>)
    requires Enumerates(order, keys)
    ensures |order| == |keys|
    decreases |order|
  {
    if order != [] {
      var last := order[|order| - 1];
      var front := order[..|order| - 1];
      assert last !in front by {
        forall i | 0 <= i < |front| ensures front[i] != last {
          assert front[i] == order[i];
        }
      }
      assert Enumerates(front, keys - {last}) by {
        forall k ensures k in front <==> k in keys - {last} {
          assert k in order <==> k in front || k == last by {
            assert order == front + [last];
          }
        }
      }
      EnumerationLength(front, keys - {last});
    } else {
      assert forall k :: k !in keys;
    }
  }

  /** Removing one replica from an iteration leaves an iteration of the others. */
  lemma EnumerationRemove(order: seq<nat>, keys: set<nat>, j: nat)
    requires Enumerates(order, keys) && j < |order|
    ensures Enumerates(order[..j] + order[j + 1..], keys - {order[j]})
  {
    var rest := order[..j] + order[j + 1..];
    assert forall i :: 0 <= i < |rest| ==> rest[i] == if i < j then order[i] else order[i + 1];
    forall k ensures k in rest <==> k in keys - {order[j]} {
      if k in keys - {order[j]} {
        var i :| 0 <= i < |order| && order[i] == k;
        assert rest[if i < j then i else i - 1] == k;
      }
    }
  }

  /** The latencies of two consecutive stretches of an iteration. */
  lemma DiffsAppend(times: map<nat, Millis>, start: Millis, a: seq<nat>, b: seq<nat>)
    requires forall i :: 0 <= i < |a| ==> a[i] in times
    requires forall i :: 0 <= i < |b| ==> b[i] in times
    ensures Diffs(times, start, a + b) == Diffs(times, start, a) + Diffs(times, start, b)
  {
  }

  /** Moving one stretch of a sequence to its end keeps its elements. */
  lemma MovedOne(front: seq<int>, b1: seq<int>, mid: seq<int>, b2: seq<int>)
    requires multiset(front) == multiset(b1 + b2)
    ensures multiset(front + mid) == multiset(b1 + mid + b2)
  {
  }

  /**
   * Two iterations of the same map give the same latencies, each as often:
   * the order of `latency_map.iter()` does not matter once sorted.
   */
  lemma {:induction false} EnumerationsAgree(times: map<nat, Millis>, start: Millis, keys: set<nat>, a: seq<nat>, b: seq<nat>)
    requires keys <= times.Keys && Enumerates(a, keys) && Enumerates(b, keys)
    ensures multiset(Diffs(times, start, a)) == multiset(Diffs(times, start, b))
    decreases |a|
  {
    if a != [] {
      var k := a[|a| - 1];
      var a' := a[..|a| - 1];
      assert a == a' + [k];
      assert k in keys && k in b;
      var j :| 0 <= j < |b| && b[j] == k;
      var b1, b2 := b[..j], b[j + 1..];
      assert b == b1 + [k] + b2;
      EnumerationRemove(a, keys, |a| - 1);
      EnumerationRemove(b, keys, j);
      assert a[..|a| - 1] + a[|a| - 1 + 1..] == a';
      EnumerationsAgree(times, start, keys - {k}, a', b1 + b2);
      DiffsMoved(times, start, a', k, b1, b2);
    }
  }

  /** Visiting one more replica last, or between two stretches, adds the same latency. */
  lemma DiffsMoved(times: map<nat, Millis>, start: Millis, a: seq<nat>, k: nat, b1: seq<nat>, b2: seq<nat>)
    requires k in times
    requires forall i :: 0 <= i < |a| ==> a[i] in times
    requires forall i :: 0 <= i < |b1| ==> b1[i] in times
    requires forall i :: 0 <= i < |b2| ==> b2[i] in times
    requires multiset(Diffs(times, start, a)) == multiset(Diffs(times, start, b1 + b2))
    ensures multiset(Diffs(times, start, a + [k])) == multiset(Diffs(times, start, b1 + [k] + b2))
  {
    DiffsAppend(times, start, a, [k]);
    DiffsAppend(times, start, b1, [k]);
    DiffsAppend(times, start, b1 + [k], b2);
    DiffsAppend(times, start, b1, b2);
    MovedOne(Diffs(times, start, a), Diffs(times, start, b1), Diffs(times, start, [k]), Diffs(times, start, b2));
  }

  /**
   * The sorted latencies of one round: `completion - start` for every
   * replica that completed, ascending.
   */
  ghost function Latencies(times: map<nat, Millis>, start: Millis): (l: seq<int>)
  {
    HasEnumeration(times.Keys);
    var order :| Enumerates(order, times.Keys);
    Sort(Diffs(times, start, order))
  }

  /** Sorting the latencies collected in any iteration order gives `Latencies`. */
  lemma LatenciesAnyOrder(times: map<nat, Millis>, start: Millis, order: seq<nat>)
    requires Enumerates(order, times.Keys)
    ensures Latencies(times, start) == Sort(Diffs(times, start, order))
  {
    HasEnumeration(times.Keys);
    var chosen :| Enumerates(chosen, times.Keys) && Latencies(times, start) == Sort(Diffs(times, start, chosen));
    EnumerationsAgree(times, start, times.Keys, chosen, order);
    SortProperties(Diffs(times, start, chosen));
    SortIsCanonical(Diffs(times, start, order), Sort(Diffs(times, start, chosen)));
  }

  /**
   * The logged latencies are ascending, one per completed replica, and
   * each is the time from the start to some replica's completion.
   */
  lemma LatencyReport(times: map<nat, Millis>, start: Millis)
    ensures SortedAsc(Latencies(times, start)) && |Latencies(times, start)| == |times|
    ensures forall x :: x in Latencies(times, start) <==> exists r :: r in times && x == WrapSub(times[r], start)
  {
    HasEnumeration(times.Keys);
    var order :| Enumerates(order, times.Keys);
    LatenciesAnyOrder(times, start, order);
    var d := Diffs(times, start, order);
    SortProperties(d);
    EnumerationLength(order, times.Keys);
    forall x ensures x in Sort(d) <==> exists r :: r in times && x == WrapSub(times[r], start) {
      assert x in Sort(d) <==> x in multiset(Sort(d));
      assert x in d <==> x in multiset(d);
      if x in d {
        var i :| 0 <= i < |d| && d[i] == x;
        assert order[i] in times;
      }
      if r :| r in times && x == WrapSub(times[r], start) {
        var i :| 0 <= i < |order| && order[i] == r;
        assert d[i] == x;
      }
    }
  }

  /**
   * The `vec_times` loop: one latency per entry of `latency_map`, in the
   * order the map is iterated (any order).
   */
  method CollectLatencies(times: map<nat, Millis>, start: Millis) returns (v: seq<int>, ghost order: seq<nat>)
    ensures Enumerates(order, times.Keys) && v == Diffs(times, start, order)
  {
    v, order := [], [];
    var rest := times.Keys;
    while rest != {}
      invariant rest <= times.Keys
      invariant Enumerates(order, times.Keys - rest)
      invariant forall i :: 0 <= i < |order| ==> order[i] in times
      invariant v == Diffs(times, start, order)
      decreases |rest|
    {
      var r :| r in rest;
      v := v + [WrapSub(times[r], start)];
      order := order + [r];
      rest := rest - {r};
    }
  }

  /** The payload loop of `spawn`: `rbc_msg_size` zero bytes. */
  method ZeroPayload(size: nat) returns (b: Bytes)
    ensures b == Zeros(size)
  {
    b := [];
    for i := 0 to size
      invariant b == Zeros(i)
    {
      b := b + [0];
    }
  }

  class Syncer {
    /** `net_map.len()`. */
    const numNodes: nat
    const broadcastMsgs: Bytes
    /** `bincode::serialize` and `bincode::deserialize` of an `RBCSyncMsg`. */
    const serialize: RbcSyncMsg -> Bytes
    const deserialize: Bytes -> Option<RbcSyncMsg>
    /**
     * `num_nodes * broadcast_msgs.len()` on `usize`, which wraps in a
     * release build; neither factor changes after `spawn`.
     */
    const stopBound: nat

    var readyForBroadcast: bool
    var rbcId: nat
    var rbcStartTimes: map<nat, Millis>
    var rbcCompleteTimes: map<nat, map<nat, Millis>>
    var rbcCompValues: map<nat, set<Bytes>>
    var alive: set<nat>
    var outbox: seq<Outgoing>
    var cancelHandlers: nat
    var reports: seq<Report>
    /** Set when the tokio task has panicked; no handler runs afterwards. */
    var panicked: bool
    /** Where the START sends of the round begin in `outbox`. */
    ghost var startAt: nat

    /** The START message of the one round, sent to every replica. */
    function StartMsg(): SyncMsg
    {
      SyncMsg(numNodes, Start, serialize(RbcSyncMsg(0, broadcastMsgs)))
    }

    function StopMsg(): SyncMsg
    {
      SyncMsg(numNodes, Stop, [])
    }

    /** `rbc_complete_times.entry(0).or_default()`, read only. */
    function CompleteTimes(): map<nat, Millis>
      reads this`rbcCompleteTimes
    {
      if 0 in rbcCompleteTimes then rbcCompleteTimes[0] else map[]
    }

    /** `rbc_comp_values.entry(0).or_default()`, read only. */
    function CompValues(): set<Bytes>
      reads this`rbcCompValues
    {
      if 0 in rbcCompValues then rbcCompValues[0] else {}
    }

    /**
     * At most one round is started: START went to every replica, in one
     * block of sends from `startAt`, exactly when `rbc_id` is 1, and the
     * start time is recorded then; every round is keyed 0; STOP has been
     * sent only if `rbc_id` reached the bound; one cancel handler is kept
     * per send.
     */
    ghost predicate Valid()
      reads this`rbcId, this`startAt, this`outbox, this`cancelHandlers
      reads this`rbcStartTimes, this`rbcCompleteTimes, this`rbcCompValues
    {
      && rbcId <= 1
      && (rbcId == 1 ==> startAt + numNodes <= |outbox| && outbox[startAt..startAt + numNodes] == ToAll(numNodes, StartMsg()))
      && (forall i :: 0 <= i < |outbox| && outbox[i].msg.state == Start ==> rbcId == 1 && startAt <= i < startAt + numNodes)
      && (forall i :: 0 <= i < |outbox| && outbox[i].msg.state == Stop ==> stopBound <= rbcId)
      && rbcStartTimes.Keys == (if rbcId == 1 then {0} else {})
      && rbcCompleteTimes.Keys <= {0} && rbcCompValues.Keys <= {0}
      && cancelHandlers == |outbox|
    }

    /** `Syncer::spawn`, without the listener and the senders it opens. */
    constructor (netMap: map<nat, string>, rbcMsgSize: nat,
                 serialize: RbcSyncMsg -> Bytes, deserialize: Bytes -> Option<RbcSyncMsg>)
      ensures Valid() && !panicked
      ensures numNodes == |netMap| && broadcastMsgs == Zeros(rbcMsgSize)
      ensures stopBound == (numNodes * |broadcastMsgs|) % U64Modulus
      ensures this.serialize == serialize && this.deserialize == deserialize
      ensures !readyForBroadcast && rbcId == 0 && alive == {} && outbox == [] && reports == []
      ensures rbcStartTimes == map[] && rbcCompleteTimes == map[] && rbcCompValues == map[]
    {
      var payload := ZeroPayload(rbcMsgSize);
      numNodes, broadcastMsgs := |netMap|, payload;
      stopBound := (|netMap| * |payload|) % U64Modulus;
      this.serialize, this.deserialize := serialize, deserialize;
      readyForBroadcast, rbcId := false, 0;
      rbcStartTimes, rbcCompleteTimes, rbcCompValues := map[], map[], map[];
      alive, outbox, cancelHandlers, reports, panicked := {}, [], 0, [], false;
      startAt := 0;
    }

    /** `broadcast`: one send, and one cancel handler, per replica `0..num_nodes-1`. */
    method Broadcast(msg: SyncMsg)
      modifies this`outbox, this`cancelHandlers
      ensures outbox == old(outbox) + ToAll(numNodes, msg)
      ensures cancelHandlers == old(cancelHandlers) + numNodes
      ensures unchanged(this`readyForBroadcast, this`rbcId, this`rbcStartTimes, this`rbcCompleteTimes, this`rbcCompValues)
      ensures unchanged(this`alive, this`reports, this`panicked, this`startAt)
    {
      for replica := 0 to numNodes
        invariant outbox == old(outbox) + ToAll(replica, msg)
        invariant cancelHandlers == old(cancelHandlers) + replica
      {
        outbox := outbox + [Outgoing(replica, msg)];
        cancelHandlers := cancelHandlers + 1;
      }
    }

    /**
     * What ALIVE does: the sender joins the set, so a repeated ALIVE is not
     * counted twice, and the syncer is ready once the set has `num_nodes`
     * members. Nothing else changes.
     */
    twostate predicate AliveStep(sender: nat)
      reads this
    {
      && alive == old(alive) + {sender}
      && (readyForBroadcast <==> old(readyForBroadcast) || |alive| == numNodes)
      && rbcId == old(rbcId) && rbcStartTimes == old(rbcStartTimes) && startAt == old(startAt)
      && rbcCompleteTimes == old(rbcCompleteTimes) && rbcCompValues == old(rbcCompValues)
      && outbox == old(outbox) && reports == old(reports) && cancelHandlers == old(cancelHandlers)
      && panicked == old(panicked)
    }

    /**
     * What COMPLETED does: a payload that does not decode panics the tokio
     * task and changes nothing else; otherwise the sender's completion time
     * replaces any earlier one and the value joins the set, and once
     * `num_nodes` replicas have completed the round is `Finished`.
     */
    twostate predicate CompletedStep(sender: nat, value: Bytes, now: Millis)
      reads this
    {
      && (deserialize(value).None? ==>
            && panicked && readyForBroadcast == old(readyForBroadcast)
            && rbcCompleteTimes == old(rbcCompleteTimes) && rbcCompValues == old(rbcCompValues)
            && outbox == old(outbox) && reports == old(reports))
      && (deserialize(value).Some? ==>
            && !panicked
            && rbcCompleteTimes == old(rbcCompleteTimes)[0 := old(CompleteTimes())[sender := now]]
            && rbcCompValues == old(rbcCompValues)[0 := old(CompValues()) + {deserialize(value).value.msg}]
            && (|CompleteTimes()| != numNodes ==>
                  readyForBroadcast == old(readyForBroadcast) && outbox == old(outbox) && reports == old(reports))
            && (|CompleteTimes()| == numNodes ==> readyForBroadcast && Finished(deserialize(value).value.id, old(outbox), old(reports))))
    }

    /** ALIVE, as `AliveStep` says. */
    method HandleAlive(sender: nat)
      requires Valid() && !panicked
      modifies this`alive, this`readyForBroadcast
      ensures Valid() && AliveStep(sender)
    {
      alive := alive + {sender};
      if |alive| == numNodes {
        readyForBroadcast := true;
      }
    }

    /**
     * COMPLETED, as `CompletedStep` says: records (or overwrites) the
     * sender's completion time and the value it delivered; once `num_nodes`
     * replicas have completed, reports the sorted latencies, or that
     * different values were delivered, and sends STOP when `rbc_id` has
     * reached the bound. A payload that does not decode panics the tokio task.
     */
    method HandleCompleted(sender: nat, value: Bytes, now: Millis)
      requires Valid() && !panicked
      modifies this`panicked, this`rbcCompleteTimes, this`rbcCompValues
      modifies this`readyForBroadcast, this`reports, this`outbox, this`cancelHandlers
      ensures Valid() && CompletedStep(sender, value, now)
    {
      var decoded := deserialize(value);
      if decoded.None? {
        panicked := true;
        return;
      }
      CompleteDecoded(sender, decoded.value, now);
    }

    /** COMPLETED once its payload has decoded to `m`. */
    method CompleteDecoded(sender: nat, m: RbcSyncMsg, now: Millis)
      requires Valid() && !panicked
      modifies this`rbcCompleteTimes, this`rbcCompValues
      modifies this`readyForBroadcast, this`reports, this`outbox, this`cancelHandlers
      ensures Valid() && !panicked
      ensures rbcCompleteTimes == old(rbcCompleteTimes)[0 := old(CompleteTimes())[sender := now]]
      ensures rbcCompValues == old(rbcCompValues)[0 := old(CompValues()) + {m.msg}]
      ensures |CompleteTimes()| != numNodes ==>
        readyForBroadcast == old(readyForBroadcast) && outbox == old(outbox) && reports == old(reports)
      ensures |CompleteTimes()| == numNodes ==> readyForBroadcast && Finished(m.id, old(outbox), old(reports))
    {
      RecordCompletion(sender, m.msg, now);
      if |CompleteTimes()| == numNodes {
        FinishRound(m.id);
      }
    }

    /**
     * `latency_map.insert(sender, now)` and `value_set.insert(msg)` on the
     * entries for round 0, created empty when missing.
     */
    method RecordCompletion(sender: nat, msg: Bytes, now: Millis)
      requires Valid()
      modifies this`rbcCompleteTimes, this`rbcCompValues
      ensures Valid()
      ensures rbcCompleteTimes == old(rbcCompleteTimes)[0 := old(CompleteTimes())[sender := now]]
      ensures rbcCompValues == old(rbcCompValues)[0 := old(CompValues()) + {msg}]
      ensures outbox == old(outbox) && reports == old(reports) && readyForBroadcast == old(readyForBroadcast)
      ensures panicked == old(panicked) && cancelHandlers == old(cancelHandlers)
    {
      rbcCompleteTimes := rbcCompleteTimes[0 := CompleteTimes()[sender := now]];
      rbcCompValues := rbcCompValues[0 := CompValues() + {msg}];
    }

    /**
     * What the syncer logs and sends once `num_nodes` replicas completed,
     * from the outbox and the log as they were: nothing but the missing
     * start time if the round never started; otherwise the sorted
     * latencies, or the distinct values when there is more than one, and
     * STOP to every replica when `rbc_id` has reached the bound.
     */
    ghost predicate Finished(id: nat, outbox0: seq<Outgoing>, reports0: seq<Report>)
      reads this
    {
      if 0 !in rbcStartTimes then
        outbox == outbox0 && reports == reports0 + [MissingStart(id)]
      else
        && reports == reports0 + [if |CompValues()| > 1 then Diverged(id, CompValues())
                                  else AllCompleted(id, Latencies(CompleteTimes(), rbcStartTimes[0]))]
        && outbox == outbox0 + (if rbcId >= stopBound then ToAll(numNodes, StopMsg()) else [])
    }

    /** The `latency_map.len() == num_nodes` branch of COMPLETED. */
    method FinishRound(id: nat)
      requires Valid()
      modifies this`readyForBroadcast, this`reports, this`outbox, this`cancelHandlers
      ensures Valid() && readyForBroadcast && Finished(id, old(outbox), old(reports))
      ensures rbcCompleteTimes == old(rbcCompleteTimes) && rbcCompValues == old(rbcCompValues)
      ensures panicked == old(panicked)
    {
      readyForBroadcast := true;
      if 0 !in rbcStartTimes {
        reports := reports + [MissingStart(id)];
        return;
      }
      ReportRound(id);
      StopWhenDone();
    }

    /** The log line of a round every replica completed: the sorted latencies, or the distinct values. */
    method ReportRound(id: nat)
      requires 0 in rbcStartTimes
      modifies this`reports
      ensures reports == old(reports) + [if |CompValues()| > 1 then Diverged(id, CompValues())
                                         else AllCompleted(id, Latencies(CompleteTimes(), rbcStartTimes[0]))]
    {
      var start := rbcStartTimes[0];
      var times, values := CompleteTimes(), CompValues();
      var latencies, order := CollectLatencies(times, start);
      LatenciesAnyOrder(times, start, order);
      if |values| > 1 {
        reports := reports + [Diverged(id, values)];
      } else {
        reports := reports + [AllCompleted(id, Sort(latencies))];
      }
    }

    /** STOP to every replica once `rbc_id` has reached the bound. */
    method StopWhenDone()
      requires Valid()
      modifies this`outbox, this`cancelHandlers
      ensures Valid()
      ensures outbox == old(outbox) + (if rbcId >= stopBound then ToAll(numNodes, StopMsg()) else [])
    {
      if rbcId >= stopBound {
        Broadcast(StopMsg());
        assert rbcId == 1 ==> outbox[startAt..startAt + numNodes] == old(outbox)[startAt..startAt + numNodes];
      }
    }

    /**
     * A tick of the 100 ms interval: once ready, and only while no round
     * has been started, clears the flag, starts round 1 by sending START to
     * every replica, and records the start time.
     */
    method Tick(now: Millis)
      requires Valid() && !panicked
      modifies this
      ensures Valid() && !panicked
      ensures alive == old(alive) && reports == old(reports)
      ensures rbcCompleteTimes == old(rbcCompleteTimes) && rbcCompValues == old(rbcCompValues)
      ensures panicked == old(panicked)
      ensures !old(readyForBroadcast) || old(rbcId) >= 1 ==>
        && readyForBroadcast == old(readyForBroadcast) && rbcId == old(rbcId)
        && rbcStartTimes == old(rbcStartTimes) && outbox == old(outbox)
      ensures old(readyForBroadcast) && old(rbcId) < 1 ==>
        && !readyForBroadcast && rbcId == old(rbcId) + 1
        && outbox == old(outbox) + ToAll(numNodes, StartMsg())
        && rbcStartTimes == old(rbcStartTimes)[0 := now]
    {
      if readyForBroadcast {
        if rbcId >= 1 {
          return;
        }
        readyForBroadcast := false;
        rbcId := rbcId + 1;
        startAt := |outbox|;
        Broadcast(StartMsg());
        rbcStartTimes := rbcStartTimes[0 := now];
      }
    }

    /**
     * One message from `rx_net`: ALIVE and COMPLETED are handled as
     * `HandleAlive` and `HandleCompleted` say, neither touching the round
     * number or its start time; STARTED is only logged, and any other
     * state is ignored.
     */
    method Receive(msg: SyncMsg, now: Millis)
      requires Valid() && !panicked
      modifies this
      ensures Valid()
      ensures msg.state == Alive ==> AliveStep(msg.sender)
      ensures msg.state == Completed ==>
        CompletedStep(msg.sender, msg.value, now) && unchanged(this`rbcId, this`rbcStartTimes, this`alive, this`startAt)
      ensures msg.state != Alive && msg.state != Completed ==> unchanged(this)
    {
      if msg.state == Alive {
        HandleAlive(msg.sender);
      } else if msg.state == Completed {
        HandleCompleted(msg.sender, msg.value, now);
      }
    }

    /** START goes to every replica in the round, and to none twice. */
    lemma AtMostOneRound()
      requires Valid()
      ensures forall i, j :: (0 <= i < j < |outbox| && outbox[i].msg.state == Start && outbox[j].msg.state == Start
                              ==> outbox[i].to != outbox[j].to)
      ensures rbcId == 1 ==> forall r :: 0 <= r < numNodes ==> Outgoing(r, StartMsg()) in outbox
    {
      forall i, j | 0 <= i < j < |outbox| && outbox[i].msg.state == Start && outbox[j].msg.state == Start
        ensures outbox[i].to != outbox[j].to
      {
        assert outbox[i] == outbox[startAt..startAt + numNodes][i - startAt];
        assert outbox[j] == outbox[startAt..startAt + numNodes][j - startAt];
      }
      if rbcId == 1 {
        forall r | 0 <= r < numNodes ensures Outgoing(r, StartMsg()) in outbox {
          assert outbox[startAt + r] == outbox[startAt..startAt + numNodes][r];
        }
      }
    }

    /**
     * With `rbc_id` never above 1, STOP is sent only when the payload is
     * empty or there is a single replica with a one-byte payload (or when
     * the `usize` product wraps to 0 or 1).
     */
    lemma StopOnlyForTinyRuns()
      requires Valid() && stopBound > 1
      ensures forall i :: 0 <= i < |outbox| ==> outbox[i].msg.state != Stop
    {
    }
  }
}
