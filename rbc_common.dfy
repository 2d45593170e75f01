/**
 * Values shared by the reliable-broadcast protocols (addrbc, ccbrb, ctrbc,
 * borbc): bytes, hashes, erasure-code shares, Merkle proofs, the
 * `get_max_*_count` accumulator loop, the per-hash sender bookkeeping and
 * the shard recovery ctrbc and borbc run before READY. Hashing, coding,
 * interpolation and Merkle trees are foreign libraries: each protocol's
 * context receives them as functions it does not look inside.
 */
module RbcCommon {
  import opened Wrappers

  newtype Byte = b: int | 0 <= b < 256

  type Bytes = seq<Byte>

  /** `crypto::hash::Hash`, a digest compared by value. */
  type Hash = Bytes

  /** `reed_solomon_rs::fec::fec::Share`. */
  datatype Share = Share(number: nat, data: Bytes)

  /** The share a fresh state holds, and the default entry of a share vector. */
  const NoShare := Share(0, [])

  /** A Merkle proof: the root it leads to and its authentication path. */
  datatype Proof = Proof(root: Hash, path: seq<Hash>)

  /** `vec![0; len]`. */
  function Zeros(len: nat): (z: Bytes)
    ensures |z| == len && forall i :: 0 <= i < len ==> z[i] == 0
  {
    seq(len, _ => 0)
  }

  // ------------------------------------------------------------ get_max_*

  /**
   * What `get_max_echo_count` and `get_max_ready_count` return: a count
   * no stored count exceeds, with `None` when it is 0 and otherwise some
   * key holding exactly that count. Ties may name any maximal key, as the
   * map's iteration order decides.
   */
  predicate IsMax<K>(counts: map<K, nat>, count: nat, mode: Option<K>)
  {
    && (forall k :: k in counts ==> counts[k] <= count)
    && (mode.None? ==> count == 0)
    && (mode.Some? ==> mode.value in counts && counts[mode.value] == count && count > 0)
  }

  /**
   * The accumulator loop: `if count > max_count { max_count = count;
   * mode_content = Some(content) }` over the map in some order.
   */
  method MaxCount<K(==)>(counts: map<K, nat>) returns (count: nat, mode: Option<K>)
    ensures IsMax(counts, count, mode)
    ensures mode.None? <==> forall k :: k in counts ==> counts[k] == 0
    ensures counts == map[] ==> count == 0 && mode == None
  {
    count, mode := 0, None;
    var rest := counts.Keys;
    while rest != {}
      invariant rest <= counts.Keys
      invariant forall k :: k in counts && k !in rest ==> counts[k] <= count
      invariant mode.None? ==> count == 0
      invariant mode.Some? ==> mode.value in counts && counts[mode.value] == count && count > 0
      decreases rest
    {
      var k :| k in rest;
      if counts[k] > count {
        count, mode := counts[k], Some(k);
      }
      rest := rest - {k};
    }
  }

  /** The lengths of the share vectors, which `get_max_ready_count` compares. */
  function Lengths<K, V>(m: map<K, seq<V>>): (r: map<K, nat>)
    ensures r.Keys == m.Keys && forall k :: k in m ==> r[k] == |m[k]|
  {
    map k | k in m :: |m[k]|
  }

  // ------------------------------------------------------- sender records

  /** The senders recorded for `key`, empty while it has none. */
  function Seen<K>(senders: map<K, set<nat>>, key: K): set<nat>
  {
    if key in senders then senders[key] else {}
  }

  /**
   * `senders.entry(key).or_default().insert(origin)` followed, when the
   * origin is new, by `*count.entry(key).or_default() += 1`: the senders
   * and counts after one message.
   */
  function Record<K>(senders: map<K, set<nat>>, counts: map<K, nat>, key: K, origin: nat): (map<K, set<nat>>, map<K, nat>)
  {
    var seen := Seen(senders, key);
    if origin in seen then (senders, counts)
    else (senders[key := seen + {origin}], counts[key := (if key in counts then counts[key] else 0) + 1])
  }

  /** Every count is the number of distinct senders recorded for its key. */
  predicate Counted<K>(senders: map<K, set<nat>>, counts: map<K, nat>)
  {
    && senders.Keys == counts.Keys
    && forall k :: k in senders ==> counts[k] == |senders[k]| && senders[k] != {}
  }

  /**
   * Counting only first receipts keeps every count equal to the number of
   * distinct senders, and a repeated origin changes nothing.
   */
  lemma RecordCounted<K>(senders: map<K, set<nat>>, counts: map<K, nat>, key: K, origin: nat)
    requires Counted(senders, counts)
    ensures var (s, c) := Record(senders, counts, key, origin);
      && Counted(s, c)
      && key in s && origin in s[key]
      && (origin in Seen(senders, key) <==> (s, c) == (senders, counts))
      && (origin !in Seen(senders, key) ==> c[key] == |Seen(senders, key)| + 1)
      && (forall k :: k in senders ==> k in s && senders[k] <= s[k])
  {
    var seen := Seen(senders, key);
    if origin !in seen {
      var (s, c) := Record(senders, counts, key, origin);
      assert |seen + {origin}| == |seen| + 1;
      forall k | k in s ensures c[k] == |s[k]| && s[k] != {} {
        if k != key {
          assert s[k] == senders[k];
        }
      }
    }
  }

  // ------------------------------------------------------ shard recovery

  /** `map.entry(key).or_default()` on a map of per-sender shards, read only. */
  function Inner(m: map<Hash, map<nat, Bytes>>, key: Hash): map<nat, Bytes>
  {
    if key in m then m[key] else map[]
  }

  /** `shards.insert(origin, shard)` on a map of per-sender shards. */
  function Put(m: map<nat, Bytes>, origin: nat, shard: Bytes): (r: map<nat, Bytes>)
    ensures r.Keys == m.Keys + {origin} && r[origin] == shard
    ensures forall k :: k in m && k != origin ==> r[k] == m[k]
  {
    m[origin := shard]
  }

  /**
   * The vector handed to `reconstruct_data`: slot `rep` of `0 .. n - 1`
   * holds `rep`'s shard when `rep` sent one.
   */
  function Slots(senders: map<nat, Bytes>, n: nat): seq<Option<Bytes>>
  {
    seq(n, rep => if rep in senders then Some(senders[rep]) else None)
  }

  /** `shards.into_iter().map(|opt| opt.unwrap())`, or `None` when a slot is empty (the `unwrap` panics). */
  function Unwrap(v: seq<Option<Bytes>>): (r: Option<seq<Bytes>>)
    ensures r.Some? <==> forall i :: 0 <= i < |v| ==> v[i].Some?
    ensures r.Some? ==> |r.value| == |v| && forall i :: 0 <= i < |v| ==> v[i] == Some(r.value[i])
  {
    if forall i :: 0 <= i < |v| ==> v[i].Some? then Some(seq(|v|, i requires 0 <= i < |v| => v[i].value)) else None
  }

  /** The shards joined end to end, as `message.extend(shard)` does. */
  function Concat(shards: seq<Bytes>): Bytes
  {
    if shards == [] then [] else Concat(shards[..|shards| - 1]) + shards[|shards| - 1]
  }

  /** Joining is associative: the message of a longer prefix extends that of a shorter one. */
  lemma {:induction false} ConcatAppend(a: seq<Bytes>, b: seq<Bytes>)
    ensures Concat(a + b) == Concat(a) + Concat(b)
    decreases |b|
  {
    if b == [] {
      assert a + b == a;
    } else {
      var b' := b[..|b| - 1];
      assert (a + b)[..|a + b| - 1] == a + b';
      ConcatAppend(a, b');
    }
  }

  /** A joined message is as long as its shards together. */
  lemma {:induction false} ConcatLength(shards: seq<Bytes>, width: nat)
    requires forall i :: 0 <= i < |shards| ==> |shards[i]| == width
    ensures |Concat(shards)| == |shards| * width
    decreases |shards|
  {
    if shards != [] {
      ConcatLength(shards[..|shards| - 1], width);
    }
  }

  /**
   * What the reconstruction block of a handler ends with: `Failed` when
   * `reconstruct_data` returns an error (logged, the handler returns),
   * `Crashed` when an `unwrap`, `expect` or index panics, otherwise the
   * shards, the value (the first `f + 1` shards joined) and the replica's
   * own shard.
   */
  datatype Recovery = Failed | Crashed | Recovered(shards: seq<Bytes>, message: Bytes, myShare: Bytes)

  /**
   * Shard recovery from the shards received for one root. `reconstruct`
   * is `reconstruct_data(&mut shards, f + 1, 2 * f)`: the vector it leaves
   * behind, or `None` for an error.
   */
  function Recover(reconstruct: seq<Option<Bytes>> -> Option<seq<Option<Bytes>>>,
                   senders: map<nat, Bytes>, n: nat, f: nat, myid: nat): (r: Recovery)
    ensures r.Recovered? ==> reconstruct(Slots(senders, n)).Some? && |r.shards| == |reconstruct(Slots(senders, n)).value|
    ensures r.Recovered? ==> f < |r.shards| && myid < |r.shards|
    ensures r.Recovered? ==> r.myShare == r.shards[myid] && r.message == Concat(r.shards[..f + 1])
    ensures r.Failed? <==> reconstruct(Slots(senders, n)).None?
  {
    match reconstruct(Slots(senders, n))
    case None => Failed
    case Some(after) =>
      match Unwrap(after)
      case None => Crashed
      case Some(shards) =>
        if |shards| <= f || |shards| <= myid then Crashed
        else Recovered(shards, Concat(shards[..f + 1]), shards[myid])
  }

  /**
   * When `reconstruct_data` only fills empty slots, as an erasure decoder
   * does, the recovered shards agree with every shard received and the
   * replica's own share is the one it received, if any.
   */
  lemma RecoverKeepsReceived(reconstruct: seq<Option<Bytes>> -> Option<seq<Option<Bytes>>>,
                             senders: map<nat, Bytes>, n: nat, f: nat, myid: nat)
    requires Recover(reconstruct, senders, n, f, myid).Recovered?
    requires var after := reconstruct(Slots(senders, n)).value;
      |after| == n && forall i :: 0 <= i < n && Slots(senders, n)[i].Some? ==> after[i] == Slots(senders, n)[i]
    ensures var r := Recover(reconstruct, senders, n, f, myid);
      && (forall rep :: rep in senders && rep < n ==> r.shards[rep] == senders[rep])
      && (myid in senders ==> r.myShare == senders[myid])
  {
    var r := Recover(reconstruct, senders, n, f, myid);
    var after := reconstruct(Slots(senders, n)).value;
    forall rep | rep in senders && rep < n
      ensures r.shards[rep] == senders[rep]
    {
      assert Slots(senders, n)[rep] == Some(senders[rep]);
      assert after[rep] == Some(r.shards[rep]);
    }
  }

  /**
   * The reconstruction block: fill the slot vector (`for rep in 0..n`),
   * call `reconstruct_data`, unwrap every slot, join the first `f + 1`
   * shards (`for i in 0..f + 1`) and take the replica's own shard.
   */
  method RecoverOn(reconstruct: seq<Option<Bytes>> -> Option<seq<Option<Bytes>>>,
                   senders: map<nat, Bytes>, n: nat, f: nat, myid: nat) returns (r: Recovery)
    ensures r == Recover(reconstruct, senders, n, f, myid)
  {
    var slots: seq<Option<Bytes>> := [];
    for rep := 0 to n
      invariant slots == Slots(senders, rep)
    {
      if rep in senders {
        slots := slots + [Some(senders[rep])];
      } else {
        slots := slots + [None];
      }
    }
    var after := reconstruct(slots);
    if after.None? {
      return Failed;
    }
    var unwrapped := Unwrap(after.value);
    if unwrapped.None? {
      return Crashed;
    }
    var shards := unwrapped.value;
    var message: Bytes := [];
    for i := 0 to f + 1
      invariant i <= |shards| && message == Concat(shards[..i])
    {
      if i >= |shards| {
        return Crashed;
      }
      assert shards[..i + 1][..i] == shards[..i];
      message := message + shards[i];
    }
    if myid >= |shards| {
      return Crashed;
    }
    r := Recovered(shards, message, shards[myid]);
  }
}
