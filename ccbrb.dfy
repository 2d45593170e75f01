/**
 * The ccbrb protocol (`consensus/ccbrb/src`): the broadcaster encodes its
 * value into `n` shards and sends each replica its own shard with the
 * vector of shard hashes (INIT); a replica whose shard matches its hash
 * echoes the commitment `c` to the hash vector to everyone; `n - f`
 * echoes for one commitment move it to READY, where it sends its shard
 * to everyone; `n - f` READY shares for one hash are decoded, and a
 * non-empty value is output and reported to the syncer.
 *
 * Each handler is a method on one instance's `RBCState` value, specified
 * by a step relation; the `Context` class applies it to `rbc_context` and
 * the outbox. Hashing, coding, serialisation and MACs are functions of
 * the configuration the model does not look inside.
 */
module Ccbrb {
  import opened Wrappers
  import opened RbcCommon

  /** `Status`, with WAITING before the broadcaster's INIT. */
  datatype Status = Waiting | Init | Echo | Ready | Output | Terminated

  /** `RBCState`. */
  datatype RbcState = RbcState(
    receivedEchoCount: map<Hash, nat>,
    receivedReadys: map<Hash, seq<Share>>,
    echoSenders: map<Hash, set<nat>>,
    readySenders: map<Hash, set<nat>>,
    fragment: Share,
    outputMessage: Bytes,
    status: Status,
    fragmentsData: map<(nat, Hash), seq<Share>>,
    fragmentsHashes: map<(nat, Hash), seq<Bytes>>,
    e: nat,
    sentReady: set<(nat, Hash, Bytes)>,
    sentEcho: set<(nat, Hash, Bytes)>)

  /** Echo counts and READY share vectors match their distinct senders. */
  predicate Wf(s: RbcState)
  {
    Counted(s.echoSenders, s.receivedEchoCount) && Counted(s.readySenders, Lengths(s.receivedReadys))
  }

  /** `RBCState::new()`, which `Default` also returns. */
  function New(): (s: RbcState)
    ensures Wf(s)
  {
    RbcState(map[], map[], map[], map[], NoShare, [], Waiting, map[], map[], 0, {}, {})
  }

  /** A fresh state waits for INIT with nothing recorded, so both maxima are `(0, None)`. */
  lemma NewState(count: nat, mode: Option<Hash>)
    ensures New().status == Waiting && New().e == 0 && New().fragment == Share(0, [])
    ensures IsMax(New().receivedEchoCount, count, mode) ==> count == 0 && mode == None
    ensures IsMax(Lengths(New().receivedReadys), count, mode) ==> count == 0 && mode == None
  {
  }

  /** `get_max_echo_count`. */
  method GetMaxEchoCount(s: RbcState) returns (count: nat, mode: Option<Hash>)
    ensures IsMax(s.receivedEchoCount, count, mode)
    ensures mode.None? <==> forall h :: h in s.receivedEchoCount ==> s.receivedEchoCount[h] == 0
  {
    count, mode := MaxCount(s.receivedEchoCount);
  }

  /** `get_max_ready_count`, over the lengths of the share vectors. */
  method GetMaxReadyCount(s: RbcState) returns (count: nat, mode: Option<Hash>)
    ensures IsMax(Lengths(s.receivedReadys), count, mode)
    ensures mode.None? <==> forall h :: h in s.receivedReadys ==> |s.receivedReadys[h]| == 0
  {
    count, mode := MaxCount(Lengths(s.receivedReadys));
  }

  // ---------------------------------------------------------- configuration

  /** A replica's parameters, and the libraries it calls. */
  datatype Config = Config(
    myid: nat,
    n: nat,
    f: nat,
    byz: bool,
    crash: bool,
    /** The replicas of `sec_key_map`, in its iteration order. */
    peers: seq<nat>,
    /** `do_hash`. */
    doHash: Bytes -> Hash,
    /** `do_hash(&bincode::serialize(&d_hashes))`. */
    commit: seq<Hash> -> Hash,
    /** `get_shards(msg, k, n)`. */
    getShards: (Bytes, nat, nat) -> seq<Bytes>,
    /** Whether `FEC::new(f, n)` fails. */
    fecFails: bool,
    /** `FEC::decode`, `None` for an error. */
    decode: seq<Share> -> Option<Bytes>,
    /** `verf_mac` over the serialised message with the sender's key. */
    macOk: (nat, ProtMsg, Bytes) -> bool)

  predicate Distinct(xs: seq<nat>)
  {
    forall i, j :: 0 <= i < j < |xs| ==> xs[i] != xs[j]
  }

  /** The replica's own id is one of the `n`, at most `n` are faulty, and keys are per replica. */
  predicate ConfigOk(cfg: Config)
  {
    cfg.myid < cfg.n && cfg.f <= cfg.n && Distinct(cfg.peers)
  }

  function Quorum(cfg: Config): nat
    requires cfg.f <= cfg.n
  {
    cfg.n - cfg.f
  }

  // --------------------------------------------------------------- messages

  /** `SendMsg`: the INIT payload. */
  datatype SendMsg = SendMsg(id: nat, dj: Share, dHashes: seq<Hash>, origin: nat)

  /** `EchoMsg`; `pi` is the hash vector `bincode` serialises. */
  datatype EchoMsg = EchoMsg(id: nat, di: Share, pi: seq<Hash>, c: Hash, origin: nat)

  /** `ShareMsg`, the READY payload. */
  datatype ShareMsg = ShareMsg(share: Share, hash: Hash, origin: nat)

  /** `ProtMsg`, each with its instance id. */
  datatype ProtMsg =
    | InitMsg(send: SendMsg, instance: nat)
    | EchoPm(echo: EchoMsg, instance: nat)
    | ReadyPm(ready: ShareMsg, instance: nat)

  /** `WrapperMsg`: a message with its sender and MAC. */
  datatype WrapperMsg = WrapperMsg(protmsg: ProtMsg, sender: nat, mac: Bytes)

  /** What a handler does beyond its own state. */
  datatype Effect =
    | SendEcho(to: nat, echo: EchoMsg, instance: nat)     // `net_send.send` of `ProtMsg::Echo`
    | SendReady(to: nat, ready: ShareMsg, instance: nat)  // `net_send.send` of `ProtMsg::Ready`
    | BroadcastInit(send: SendMsg, tag: nat)              // `broadcast(ProtMsg::Init(..))`
    | Completed(to: nat, sender: nat, value: Bytes)       // `terminate`: COMPLETED to the syncer
    | Panic                                               // a failed `assert!` or missing key

  /** The tokio task has stopped: the last effect is a panic. */
  predicate Panics(out: seq<Effect>)
  {
    |out| > 0 && out[|out| - 1] == Panic
  }

  lemma PanicsAppend(a: seq<Effect>, b: seq<Effect>)
    ensures Panics(a + b) == if b == [] then Panics(a) else Panics(b)
  {
    if b == [] {
      assert a + b == a;
    }
  }

  /** The sends that register a cancel handler. */
  function Handlers(out: seq<Effect>): nat
  {
    if out == [] then 0
    else Handlers(out[..|out| - 1]) + (if out[|out| - 1].BroadcastInit? || out[|out| - 1].Panic? then 0 else 1)
  }

  lemma {:induction false} HandlersAppend(a: seq<Effect>, b: seq<Effect>)
    ensures Handlers(a + b) == Handlers(a) + Handlers(b)
    decreases |b|
  {
    if b == [] {
      assert a + b == a;
    } else {
      assert (a + b)[..|a + b| - 1] == a + b[..|b| - 1];
      HandlersAppend(a, b[..|b| - 1]);
    }
  }

  /** The `terminate` calls among the effects. */
  function Completions(out: seq<Effect>): nat
  {
    if out == [] then 0
    else Completions(out[..|out| - 1]) + (if out[|out| - 1].Completed? then 1 else 0)
  }

  lemma {:induction false} CompletionsAppend(a: seq<Effect>, b: seq<Effect>)
    ensures Completions(a + b) == Completions(a) + Completions(b)
    decreases |b|
  {
    if b == [] {
      assert a + b == a;
    } else {
      assert (a + b)[..|a + b| - 1] == a + b[..|b| - 1];
      CompletionsAppend(a, b[..|b| - 1]);
    }
  }

  /** `terminate(data)`: COMPLETED from this replica, with the value, to the syncer at 0. */
  function Terminate(cfg: Config, data: Bytes): seq<Effect>
  {
    [Completed(0, cfg.myid, data)]
  }

  // ------------------------------------------------------------------ ready

  /** A READY share recorded for its hash, its origin added to the senders. */
  function Received(s: RbcState, msg: ShareMsg): RbcState
  {
    var shares := if msg.hash in s.receivedReadys then s.receivedReadys[msg.hash] else [];
    s.(readySenders := s.readySenders[msg.hash := Seen(s.readySenders, msg.hash) + {msg.origin}],
       receivedReadys := s.receivedReadys[msg.hash := shares + [msg.share]])
  }

  /**
   * Decoding the `n - f` or more shares of `h`: a non-empty value is
   * output and, at once, the instance terminates and reports it; a failed
   * `FEC::new`, a failed decode or an empty value changes nothing more.
   */
  predicate Decoded(cfg: Config, t: RbcState, h: Hash, s': RbcState, out: seq<Effect>)
    requires h in t.receivedReadys
  {
    var d := if cfg.fecFails then None else cfg.decode(t.receivedReadys[h]);
    if d.Some? && d.value != [] then s' == t.(outputMessage := d.value, status := Terminated) && out == Terminate(cfg, d.value)
    else s' == t && out == []
  }

  /** Decoding changes only the output and the status. */
  lemma DecodedChanges(cfg: Config, t: RbcState, h: Hash, s': RbcState, out: seq<Effect>)
    requires h in t.receivedReadys && Decoded(cfg, t, h, s', out)
    ensures s'.receivedReadys == t.receivedReadys && s'.readySenders == t.readySenders
    ensures s'.receivedEchoCount == t.receivedEchoCount && s'.echoSenders == t.echoSenders && s'.fragment == t.fragment
    ensures || (s' == t && out == [])
            || (&& s' == t.(outputMessage := s'.outputMessage, status := Terminated)
                && !cfg.fecFails && s'.outputMessage != [] && out == Terminate(cfg, s'.outputMessage)
                && cfg.decode(t.receivedReadys[h]) == Some(s'.outputMessage))
  {
  }

  /**
   * `handle_ready`: an empty share panics; TERMINATED ignores the message;
   * OUTPUT terminates with the stored value; otherwise a first share from
   * its origin is recorded and, once some hash has `n - f` shares, a hash
   * of maximal count is decoded.
   */
  ghost predicate ReadyStep(cfg: Config, s: RbcState, msg: ShareMsg, s': RbcState, out: seq<Effect>)
    requires cfg.f <= cfg.n
  {
    if msg.share.data == [] then s' == s && out == [Panic]
    else if s.status == Terminated then s' == s && out == []
    else if s.status == Output then s' == s.(status := Terminated) && out == Terminate(cfg, s.outputMessage)
    else if msg.origin in Seen(s.readySenders, msg.hash) then s' == s && out == []
    else
      var t := Received(s, msg);
      if exists h :: h in t.receivedReadys && |t.receivedReadys[h]| >= Quorum(cfg) then
        exists h :: h in t.receivedReadys && IsMax(Lengths(t.receivedReadys), |t.receivedReadys[h]|, Some(h))
          && |t.receivedReadys[h]| >= Quorum(cfg) && Decoded(cfg, t, h, s', out)
      else s' == t && out == []
  }

  /** `handle_ready` on the instance's state. */
  method HandleReadyOn(cfg: Config, s: RbcState, msg: ShareMsg) returns (s': RbcState, out: seq<Effect>)
    requires cfg.f <= cfg.n && Wf(s)
    ensures ReadyStep(cfg, s, msg, s', out)
  {
    if msg.share.data == [] {
      return s, [Panic];
    }
    if s.status == Terminated {
      return s, [];
    }
    if s.status == Output {
      s' := s.(status := Terminated);
      return s', Terminate(cfg, s.outputMessage);
    }
    if msg.origin in Seen(s.readySenders, msg.hash) {
      return s, [];
    }
    s' := Received(s, msg);
    out := [];
    ReceivedWf(s, msg);
    var maxCount, mode := GetMaxReadyCount(s');
    assert msg.hash in s'.receivedReadys && |s'.receivedReadys[msg.hash]| > 0;
    if maxCount < Quorum(cfg) {
      assert forall h :: h in s'.receivedReadys ==> Lengths(s'.receivedReadys)[h] < Quorum(cfg);
      return;
    }
    var h := mode.value;
    ghost var t := s';
    var shares := s'.receivedReadys[h];
    assert Lengths(t.receivedReadys)[h] == |shares| >= Quorum(cfg);
    if cfg.fecFails {
      assert Decoded(cfg, t, h, s', out);
      return;
    }
    var decoded := cfg.decode(shares);
    if decoded.Some? && decoded.value != [] {
      s' := s'.(outputMessage := decoded.value, status := Output);
    }
    if s'.status == Output {
      s' := s'.(status := Terminated);
      out := Terminate(cfg, s'.outputMessage);
    }
    assert Decoded(cfg, t, h, s', out);
  }

  lemma ReceivedWf(s: RbcState, msg: ShareMsg)
    requires Wf(s) && msg.origin !in Seen(s.readySenders, msg.hash)
    ensures Wf(Received(s, msg))
    ensures var t := Received(s, msg);
      Lengths(t.receivedReadys) == Record(s.readySenders, Lengths(s.receivedReadys), msg.hash, msg.origin).1
  {
    var t := Received(s, msg);
    RecordCounted(s.readySenders, Lengths(s.receivedReadys), msg.hash, msg.origin);
    assert Lengths(t.receivedReadys) == Record(s.readySenders, Lengths(s.receivedReadys), msg.hash, msg.origin).1;
  }

  /** A READY keeps every count equal to the number of its distinct senders. */
  lemma ReadyStepWf(cfg: Config, s: RbcState, msg: ShareMsg, s': RbcState, out: seq<Effect>)
    requires cfg.f <= cfg.n && Wf(s) && ReadyStep(cfg, s, msg, s', out)
    ensures Wf(s')
  {
    if msg.share.data != [] && s.status != Terminated && s.status != Output && msg.origin !in Seen(s.readySenders, msg.hash) {
      ReceivedWf(s, msg);
      var t := Received(s, msg);
      if exists h :: h in t.receivedReadys && |t.receivedReadys[h]| >= Quorum(cfg) {
        var h :| h in t.receivedReadys && IsMax(Lengths(t.receivedReadys), |t.receivedReadys[h]|, Some(h))
          && |t.receivedReadys[h]| >= Quorum(cfg) && Decoded(cfg, t, h, s', out);
        DecodedChanges(cfg, t, h, s', out);
      }
    }
  }

  /**
   * The instance terminates at most once: a READY calls `terminate`
   * exactly when it moves a non-terminated instance to TERMINATED, and
   * then once, with the value it outputs; TERMINATED is never left.
   */
  lemma ReadyStepTerminates(cfg: Config, s: RbcState, msg: ShareMsg, s': RbcState, out: seq<Effect>)
    requires cfg.f <= cfg.n && ReadyStep(cfg, s, msg, s', out)
    ensures s.status == Terminated ==> s' == s && Completions(out) == 0
    ensures Completions(out) <= 1
    ensures Completions(out) == 1 <==> s.status != Terminated && s'.status == Terminated
    ensures Completions(out) == 1 ==> out == Terminate(cfg, s'.outputMessage) && (s'.outputMessage != [] || s.status == Output)
    ensures s'.status == s.status || s'.status == Terminated
  {
    if msg.share.data != [] && s.status != Terminated && s.status != Output && msg.origin !in Seen(s.readySenders, msg.hash) {
      var t := Received(s, msg);
      if exists h :: h in t.receivedReadys && |t.receivedReadys[h]| >= Quorum(cfg) {
        var h :| h in t.receivedReadys && IsMax(Lengths(t.receivedReadys), |t.receivedReadys[h]|, Some(h))
          && |t.receivedReadys[h]| >= Quorum(cfg) && Decoded(cfg, t, h, s', out);
        DecodedChanges(cfg, t, h, s', out);
      }
    }
  }

  /**
   * A value is output only by decoding: when a READY terminates an
   * instance that had not output yet, some hash has at least `n - f`
   * shares from distinct origins, and their decoding is the non-empty
   * value reported.
   */
  lemma ReadyStepDecodes(cfg: Config, s: RbcState, msg: ShareMsg, s': RbcState, out: seq<Effect>)
    requires cfg.f <= cfg.n && Wf(s) && ReadyStep(cfg, s, msg, s', out)
    requires s.status != Output && s.status != Terminated && s'.status == Terminated
    ensures !cfg.fecFails && s'.outputMessage != [] && out == Terminate(cfg, s'.outputMessage)
    ensures exists h :: (h in s'.receivedReadys && |s'.receivedReadys[h]| >= Quorum(cfg)
      && |Seen(s'.readySenders, h)| >= Quorum(cfg) && cfg.decode(s'.receivedReadys[h]) == Some(s'.outputMessage))
  {
    ReceivedWf(s, msg);
    var t := Received(s, msg);
    var h :| h in t.receivedReadys && IsMax(Lengths(t.receivedReadys), |t.receivedReadys[h]|, Some(h))
      && |t.receivedReadys[h]| >= Quorum(cfg) && Decoded(cfg, t, h, s', out);
    DecodedChanges(cfg, t, h, s', out);
    assert Lengths(t.receivedReadys)[h] == |t.receivedReadys[h]| == |Seen(t.readySenders, h)|;
  }

  /** The READY message `start_ready` sends: the fragment, or zeros of its length from a Byzantine replica. */
  function ReadyMsgOf(cfg: Config, s: RbcState, hash: Hash): ShareMsg
  {
    ShareMsg(if cfg.byz then Share(cfg.myid, Zeros(|s.fragment.data|)) else s.fragment, hash, cfg.myid)
  }

  /** One READY to each replica of `ps` other than this one. */
  function ReadySends(cfg: Config, ps: seq<nat>, msg: ShareMsg, instance: nat): seq<Effect>
  {
    if ps == [] then []
    else
      ReadySends(cfg, ps[..|ps| - 1], msg, instance)
        + (if ps[|ps| - 1] == cfg.myid then [] else [SendReady(ps[|ps| - 1], msg, instance)])
  }

  lemma {:induction false} ReadySendsAppend(cfg: Config, a: seq<nat>, b: seq<nat>, msg: ShareMsg, instance: nat)
    ensures ReadySends(cfg, a + b, msg, instance) == ReadySends(cfg, a, msg, instance) + ReadySends(cfg, b, msg, instance)
    decreases |b|
  {
    if b == [] {
      assert a + b == a;
    } else {
      assert (a + b)[..|a + b| - 1] == a + b[..|b| - 1];
      ReadySendsAppend(cfg, a, b[..|b| - 1], msg, instance);
    }
  }

  /**
   * The sends are exactly one READY, with the given message, to each
   * other replica of `ps`: no panic, no completion, one cancel handler each.
   */
  lemma {:induction false} ReadySendsSpec(cfg: Config, ps: seq<nat>, msg: ShareMsg, instance: nat)
    ensures var out := ReadySends(cfg, ps, msg, instance);
      && (forall e :: e in out ==> e.SendReady? && e.ready == msg && e.instance == instance && e.to in ps && e.to != cfg.myid)
      && (forall r :: r in ps && r != cfg.myid ==> SendReady(r, msg, instance) in out)
      && Handlers(out) == |out| && Completions(out) == 0 && !Panics(out)
    decreases |ps|
  {
    if ps != [] {
      var init := ps[..|ps| - 1];
      ReadySendsSpec(cfg, init, msg, instance);
      var last := if ps[|ps| - 1] == cfg.myid then [] else [SendReady(ps[|ps| - 1], msg, instance)];
      HandlersAppend(ReadySends(cfg, init, msg, instance), last);
      CompletionsAppend(ReadySends(cfg, init, msg, instance), last);
      assert ps == init + [ps[|ps| - 1]];
    }
  }

  function IndexOf(xs: seq<nat>, x: nat): (k: nat)
    requires x in xs
    ensures k < |xs| && xs[k] == x && x !in xs[..k]
  {
    if xs[0] == x then 0 else 1 + IndexOf(xs[1..], x)
  }

  /**
   * `start_ready` (with `ready_self` for its own turn): nothing unless
   * READY and not crashed; otherwise every other replica of `sec_key_map`
   * is sent the READY message, and at its own place the replica handles
   * its fragment as a READY, stopping if that panics.
   */
  ghost predicate StartReadyStep(cfg: Config, s: RbcState, hash: Hash, instance: nat, s': RbcState, out: seq<Effect>)
    requires cfg.f <= cfg.n
  {
    var msg := ReadyMsgOf(cfg, s, hash);
    if s.status != Ready || cfg.crash then s' == s && out == []
    else if cfg.myid !in cfg.peers then s' == s && out == ReadySends(cfg, cfg.peers, msg, instance)
    else
      var k := IndexOf(cfg.peers, cfg.myid);
      exists o :: ReadyStep(cfg, s, ShareMsg(s.fragment, hash, cfg.myid), s', o)
        && out == ReadySends(cfg, cfg.peers[..k], msg, instance) + o
                  + (if Panics(o) then [] else ReadySends(cfg, cfg.peers[k + 1..], msg, instance))
  }

  /** `ready_self`: its own fragment handled as a READY, while READY. */
  method ReadySelfOn(cfg: Config, s: RbcState, hash: Hash) returns (s': RbcState, out: seq<Effect>)
    requires cfg.f <= cfg.n && Wf(s)
    ensures s.status == Ready ==> ReadyStep(cfg, s, ShareMsg(s.fragment, hash, cfg.myid), s', out)
    ensures s.status != Ready ==> s' == s && out == []
  {
    if s.status != Ready {
      return s, [];
    }
    s', out := HandleReadyOn(cfg, s, ShareMsg(s.fragment, hash, cfg.myid));
  }

  /**
   * `start_ready` after the first `i` replicas of `sec_key_map`: before its
   * own turn nothing but READY sends; after it, its own READY step `own`
   * (which did not panic) between the sends before and after it.
   */
  ghost predicate ReadyRound(cfg: Config, s: RbcState, hash: Hash, instance: nat, i: nat,
                             s': RbcState, k: nat, own: seq<Effect>, out: seq<Effect>)
    requires cfg.f <= cfg.n && i <= |cfg.peers|
  {
    var msg := ReadyMsgOf(cfg, s, hash);
    if cfg.myid !in cfg.peers[..i] then s' == s && out == ReadySends(cfg, cfg.peers[..i], msg, instance)
    else
      && cfg.myid in cfg.peers && k < i && k == IndexOf(cfg.peers, cfg.myid)
      && ReadyStep(cfg, s, ShareMsg(s.fragment, hash, cfg.myid), s', own) && !Panics(own)
      && out == ReadySends(cfg, cfg.peers[..k], msg, instance) + own + ReadySends(cfg, cfg.peers[k + 1..i], msg, instance)
  }

  /** Another replica's turn appends its READY. */
  lemma ReadyRoundOther(cfg: Config, s: RbcState, hash: Hash, instance: nat, i: nat,
                        s': RbcState, k: nat, own: seq<Effect>, out: seq<Effect>)
    requires ConfigOk(cfg) && i < |cfg.peers| && cfg.peers[i] != cfg.myid
    requires ReadyRound(cfg, s, hash, instance, i, s', k, own, out)
    ensures ReadyRound(cfg, s, hash, instance, i + 1, s', k, own,
                       out + [SendReady(cfg.peers[i], ReadyMsgOf(cfg, s, hash), instance)])
  {
    assert cfg.peers[..i + 1] == cfg.peers[..i] + [cfg.peers[i]];
    if cfg.myid in cfg.peers[..i] {
      ReadyRoundAfter(cfg, s, hash, instance, i, k, out);
    } else {
      ReadySendsAppend(cfg, cfg.peers[..i], [cfg.peers[i]], ReadyMsgOf(cfg, s, hash), instance);
    }
  }

  /** A send after its own turn extends the sends that follow it. */
  lemma ReadyRoundAfter(cfg: Config, s: RbcState, hash: Hash, instance: nat, i: nat, k: nat, out: seq<Effect>)
    requires i < |cfg.peers| && k < i && cfg.peers[i] != cfg.myid
    ensures ReadySends(cfg, cfg.peers[k + 1..i + 1], ReadyMsgOf(cfg, s, hash), instance)
      == ReadySends(cfg, cfg.peers[k + 1..i], ReadyMsgOf(cfg, s, hash), instance)
         + [SendReady(cfg.peers[i], ReadyMsgOf(cfg, s, hash), instance)]
  {
    assert cfg.peers[k + 1..i + 1] == cfg.peers[k + 1..i] + [cfg.peers[i]];
    ReadySendsAppend(cfg, cfg.peers[k + 1..i], [cfg.peers[i]], ReadyMsgOf(cfg, s, hash), instance);
  }

  /** At its own turn nothing but sends precede, and the state is untouched. */
  lemma ReadyRoundAtSelf(cfg: Config, s: RbcState, hash: Hash, instance: nat, i: nat,
                         s': RbcState, k: nat, own: seq<Effect>, out: seq<Effect>)
    requires ConfigOk(cfg) && i < |cfg.peers| && cfg.peers[i] == cfg.myid
    requires ReadyRound(cfg, s, hash, instance, i, s', k, own, out)
    ensures s' == s && out == ReadySends(cfg, cfg.peers[..i], ReadyMsgOf(cfg, s, hash), instance)
    ensures i == IndexOf(cfg.peers, cfg.myid)
  {
    assert cfg.myid !in cfg.peers[..i];
  }

  /** Its own turn, when its READY step does not panic. */
  lemma ReadyRoundSelf(cfg: Config, s: RbcState, hash: Hash, instance: nat, i: nat,
                       s1: RbcState, o: seq<Effect>, out: seq<Effect>)
    requires ConfigOk(cfg) && i < |cfg.peers| && cfg.peers[i] == cfg.myid && i == IndexOf(cfg.peers, cfg.myid)
    requires out == ReadySends(cfg, cfg.peers[..i], ReadyMsgOf(cfg, s, hash), instance)
    requires ReadyStep(cfg, s, ShareMsg(s.fragment, hash, cfg.myid), s1, o) && !Panics(o)
    ensures ReadyRound(cfg, s, hash, instance, i + 1, s1, i, o, out + o)
  {
    assert cfg.peers[..i + 1] == cfg.peers[..i] + [cfg.myid];
    assert cfg.peers[i + 1..i + 1] == [];
    assert out + o == out + o + ReadySends(cfg, [], ReadyMsgOf(cfg, s, hash), instance);
  }

  /** Its own turn, when its READY step panics: the tokio task stops there. */
  lemma ReadyRoundPanics(cfg: Config, s: RbcState, hash: Hash, instance: nat, i: nat,
                         s1: RbcState, o: seq<Effect>, out: seq<Effect>)
    requires ConfigOk(cfg) && s.status == Ready && !cfg.crash
    requires i < |cfg.peers| && cfg.peers[i] == cfg.myid && i == IndexOf(cfg.peers, cfg.myid)
    requires out == ReadySends(cfg, cfg.peers[..i], ReadyMsgOf(cfg, s, hash), instance)
    requires ReadyStep(cfg, s, ShareMsg(s.fragment, hash, cfg.myid), s1, o) && Panics(o)
    ensures StartReadyStep(cfg, s, hash, instance, s1, out + o)
  {
    assert out + o == out + o + [];
  }

  /** After the last replica, the round is `start_ready`'s whole step. */
  lemma ReadyRoundDone(cfg: Config, s: RbcState, hash: Hash, instance: nat,
                       s': RbcState, k: nat, own: seq<Effect>, out: seq<Effect>)
    requires ConfigOk(cfg) && s.status == Ready && !cfg.crash
    requires ReadyRound(cfg, s, hash, instance, |cfg.peers|, s', k, own, out)
    ensures StartReadyStep(cfg, s, hash, instance, s', out)
  {
    assert cfg.peers[..|cfg.peers|] == cfg.peers;
  }

  /** `start_ready` on the instance's state. */
  method StartReadyOn(cfg: Config, s: RbcState, hash: Hash, instance: nat) returns (s': RbcState, out: seq<Effect>)
    requires ConfigOk(cfg) && Wf(s)
    ensures StartReadyStep(cfg, s, hash, instance, s', out)
  {
    if s.status != Ready {
      return s, [];
    }
    var msg := ReadyMsgOf(cfg, s, hash);
    s', out := s, [];
    if cfg.crash {
      return;
    }
    ghost var k: nat := 0;
    ghost var own: seq<Effect> := [];
    for i := 0 to |cfg.peers|
      invariant ReadyRound(cfg, s, hash, instance, i, s', k, own, out)
    {
      var replica := cfg.peers[i];
      if replica == cfg.myid {
        ReadyRoundAtSelf(cfg, s, hash, instance, i, s', k, own, out);
        var o;
        s', o := ReadySelfOn(cfg, s, hash);
        if Panics(o) {
          ReadyRoundPanics(cfg, s, hash, instance, i, s', o, out);
          out := out + o;
          return;
        }
        ReadyRoundSelf(cfg, s, hash, instance, i, s', o, out);
        k, own := i, o;
        out := out + o;
      } else {
        ReadyRoundOther(cfg, s, hash, instance, i, s', k, own, out);
        out := out + [SendReady(replica, msg, instance)];
      }
    }
    ReadyRoundDone(cfg, s, hash, instance, s', k, own, out);
  }

  /** `start_ready` keeps the counts matching the senders. */
  lemma StartReadyStepWf(cfg: Config, s: RbcState, hash: Hash, instance: nat, s': RbcState, out: seq<Effect>)
    requires cfg.f <= cfg.n && Wf(s) && StartReadyStep(cfg, s, hash, instance, s', out)
    ensures Wf(s')
  {
    if s.status == Ready && !cfg.crash && cfg.myid in cfg.peers {
      var o :| ReadyStep(cfg, s, ShareMsg(s.fragment, hash, cfg.myid), s', o);
      ReadyStepWf(cfg, s, ShareMsg(s.fragment, hash, cfg.myid), s', o);
    }
  }

  /**
   * `start_ready` acts only in READY: it sends nothing when crashed, calls
   * `terminate` at most once and only when its own share completes the
   * decoding, and leaves the status READY or TERMINATED.
   */
  lemma StartReadyStepTerminates(cfg: Config, s: RbcState, hash: Hash, instance: nat, s': RbcState, out: seq<Effect>)
    requires cfg.f <= cfg.n && StartReadyStep(cfg, s, hash, instance, s', out)
    ensures s.status != Ready || cfg.crash ==> s' == s && out == []
    ensures Completions(out) <= 1
    ensures Completions(out) == 1 <==> s'.status == Terminated && s.status != Terminated
    ensures s'.status == s.status || s'.status == Terminated
  {
    if s.status == Ready && !cfg.crash {
      var msg := ReadyMsgOf(cfg, s, hash);
      if cfg.myid !in cfg.peers {
        ReadySendsSpec(cfg, cfg.peers, msg, instance);
      } else {
        var k := IndexOf(cfg.peers, cfg.myid);
        var o :| ReadyStep(cfg, s, ShareMsg(s.fragment, hash, cfg.myid), s', o)
          && out == ReadySends(cfg, cfg.peers[..k], msg, instance) + o
                    + (if Panics(o) then [] else ReadySends(cfg, cfg.peers[k + 1..], msg, instance));
        ReadyStepTerminates(cfg, s, ShareMsg(s.fragment, hash, cfg.myid), s', o);
        var pre := ReadySends(cfg, cfg.peers[..k], msg, instance);
        var post := if Panics(o) then [] else ReadySends(cfg, cfg.peers[k + 1..], msg, instance);
        ReadySendsSpec(cfg, cfg.peers[..k], msg, instance);
        ReadySendsSpec(cfg, cfg.peers[k + 1..], msg, instance);
        CompletionsAppend(pre, o);
        CompletionsAppend(pre + o, post);
      }
    }
  }

  // ------------------------------------------------------------------- echo

  /** An ECHO's commitment counted for a new origin. */
  function Echoed(s: RbcState, msg: EchoMsg): RbcState
  {
    var (senders, counts) := Record(s.echoSenders, s.receivedEchoCount, msg.c, msg.origin);
    s.(echoSenders := senders, receivedEchoCount := counts)
  }

  /**
   * `handle_echo`: a repeated origin for the commitment changes nothing; a
   * new one is counted, and when the status is ECHO and some commitment
   * has `n - f` echoes, the status becomes READY and `start_ready` runs
   * for a commitment of maximal count.
   */
  ghost predicate EchoStep(cfg: Config, s: RbcState, msg: EchoMsg, instance: nat, s': RbcState, out: seq<Effect>)
    requires cfg.f <= cfg.n
  {
    var t := Echoed(s, msg);
    var counts := t.receivedEchoCount;
    if msg.origin in Seen(s.echoSenders, msg.c) then s' == s && out == []
    else if s.status == Echo && exists h :: h in counts && counts[h] >= Quorum(cfg) then
      exists h :: h in counts && IsMax(counts, counts[h], Some(h)) && counts[h] >= Quorum(cfg)
        && StartReadyStep(cfg, t.(status := Ready), h, instance, s', out)
    else s' == t && out == []
  }

  /** `handle_echo` on the instance's state. */
  method HandleEchoOn(cfg: Config, s: RbcState, msg: EchoMsg, instance: nat) returns (s': RbcState, out: seq<Effect>)
    requires ConfigOk(cfg) && Wf(s)
    ensures EchoStep(cfg, s, msg, instance, s', out)
  {
    RecordCounted(s.echoSenders, s.receivedEchoCount, msg.c, msg.origin);
    if msg.origin in Seen(s.echoSenders, msg.c) {
      return s, [];
    }
    s' := Echoed(s, msg);
    ghost var counts := s'.receivedEchoCount;
    out := [];
    var maxCount, mode := GetMaxEchoCount(s');
    if maxCount >= Quorum(cfg) && s'.status == Echo {
      assert counts[msg.c] > 0;
      s', out := StartReadyOn(cfg, s'.(status := Ready), mode.value, instance);
    }
  }

  /** An echo keeps the counts matching the senders and records its origin. */
  lemma EchoStepWf(cfg: Config, s: RbcState, msg: EchoMsg, instance: nat, s': RbcState, out: seq<Effect>)
    requires cfg.f <= cfg.n && Wf(s) && EchoStep(cfg, s, msg, instance, s', out)
    ensures Wf(s')
    ensures msg.c in s'.echoSenders && msg.origin in s'.echoSenders[msg.c]
  {
    var t := Echoed(s, msg);
    var counts := t.receivedEchoCount;
    RecordCounted(s.echoSenders, s.receivedEchoCount, msg.c, msg.origin);
    if msg.origin !in Seen(s.echoSenders, msg.c) && s.status == Echo && exists h :: h in counts && counts[h] >= Quorum(cfg) {
      var h :| h in counts && IsMax(counts, counts[h], Some(h)) && counts[h] >= Quorum(cfg)
        && StartReadyStep(cfg, t.(status := Ready), h, instance, s', out);
      StartReadyStepWf(cfg, t.(status := Ready), h, instance, s', out);
      StartReadyStepKeeps(cfg, t.(status := Ready), h, instance, s', out);
    }
  }

  /**
   * An echo changes the status only from ECHO, to READY or (through its
   * own READY) TERMINATED, and only when a new origin brings some
   * commitment to `n - f`; it calls `terminate` at most once, and never
   * for a terminated instance.
   */
  lemma EchoStepStatus(cfg: Config, s: RbcState, msg: EchoMsg, instance: nat, s': RbcState, out: seq<Effect>)
    requires cfg.f <= cfg.n && Wf(s) && EchoStep(cfg, s, msg, instance, s', out)
    ensures s'.status != s.status ==> s.status == Echo && (s'.status == Ready || s'.status == Terminated)
    ensures s'.status != s.status ==> (msg.origin !in Seen(s.echoSenders, msg.c)
      && exists h :: h in s'.receivedEchoCount && s'.receivedEchoCount[h] >= Quorum(cfg))
    ensures Completions(out) <= 1 && (Completions(out) == 1 ==> s.status == Echo && s'.status == Terminated)
  {
    var t := Echoed(s, msg);
    var counts := t.receivedEchoCount;
    if msg.origin !in Seen(s.echoSenders, msg.c) && s.status == Echo && exists h :: h in counts && counts[h] >= Quorum(cfg) {
      var h :| h in counts && IsMax(counts, counts[h], Some(h)) && counts[h] >= Quorum(cfg)
        && StartReadyStep(cfg, t.(status := Ready), h, instance, s', out);
      StartReadyStepTerminates(cfg, t.(status := Ready), h, instance, s', out);
      StartReadyStepKeeps(cfg, t.(status := Ready), h, instance, s', out);
    }
  }

  /** `start_ready` leaves the echo bookkeeping and the fragment alone. */
  lemma StartReadyStepKeeps(cfg: Config, s: RbcState, hash: Hash, instance: nat, s': RbcState, out: seq<Effect>)
    requires cfg.f <= cfg.n && StartReadyStep(cfg, s, hash, instance, s', out)
    ensures s'.receivedEchoCount == s.receivedEchoCount && s'.echoSenders == s.echoSenders && s'.fragment == s.fragment
  {
    if s.status == Ready && !cfg.crash && cfg.myid in cfg.peers {
      var o :| ReadyStep(cfg, s, ShareMsg(s.fragment, hash, cfg.myid), s', o);
      ReadyStepKeepsEchoes(cfg, s, ShareMsg(s.fragment, hash, cfg.myid), s', o);
    }
  }

  /** A READY leaves the echo bookkeeping alone. */
  lemma ReadyStepKeepsEchoes(cfg: Config, s: RbcState, msg: ShareMsg, s': RbcState, out: seq<Effect>)
    requires cfg.f <= cfg.n && ReadyStep(cfg, s, msg, s', out)
    ensures s'.receivedEchoCount == s.receivedEchoCount && s'.echoSenders == s.echoSenders && s'.fragment == s.fragment
  {
    if msg.share.data != [] && s.status != Terminated && s.status != Output && msg.origin !in Seen(s.readySenders, msg.hash) {
      var t := Received(s, msg);
      if exists h :: h in t.receivedReadys && |t.receivedReadys[h]| >= Quorum(cfg) {
        var h :| h in t.receivedReadys && IsMax(Lengths(t.receivedReadys), |t.receivedReadys[h]|, Some(h))
          && |t.receivedReadys[h]| >= Quorum(cfg) && Decoded(cfg, t, h, s', out);
        DecodedChanges(cfg, t, h, s', out);
      }
    }
  }

  // ------------------------------------------------------------- start_echo

  /** The ECHO `start_echo` addresses to `replica`: its own shard, or an empty one from a Byzantine replica. */
  function EchoFor(cfg: Config, msg: SendMsg, c: Hash, instance: nat, replica: nat): EchoMsg
  {
    EchoMsg(instance, if cfg.byz && replica != cfg.myid then Share(replica, []) else msg.dj, msg.dHashes, c, cfg.myid)
  }

  /**
   * The sends of `start_echo` to replicas `lo .. hi - 1` other than this
   * one, stopping with a panic at the first replica without a key.
   */
  function EchoSends(cfg: Config, msg: SendMsg, c: Hash, instance: nat, lo: nat, hi: nat): seq<Effect>
    decreases hi
  {
    if hi <= lo then []
    else
      var pre := EchoSends(cfg, msg, c, instance, lo, hi - 1);
      var r := hi - 1;
      if Panics(pre) then pre
      else if r == cfg.myid then pre
      else if r !in cfg.peers then pre + [Panic]
      else pre + [SendEcho(r, EchoFor(cfg, msg, c, instance, r), instance)]
  }

  /** Once the sends have panicked, later replicas add nothing. */
  lemma {:induction false} EchoSendsStops(cfg: Config, msg: SendMsg, c: Hash, instance: nat, lo: nat, k: nat, hi: nat)
    requires k <= hi && Panics(EchoSends(cfg, msg, c, instance, lo, k))
    ensures EchoSends(cfg, msg, c, instance, lo, hi) == EchoSends(cfg, msg, c, instance, lo, k)
    decreases hi
  {
    if k < hi {
      EchoSendsStops(cfg, msg, c, instance, lo, k, hi - 1);
    }
  }

  /** `start_echo`'s sends panic exactly when some other replica in range has no key. */
  lemma {:induction false} EchoSendsPanics(cfg: Config, msg: SendMsg, c: Hash, instance: nat, lo: nat, hi: nat)
    ensures Panics(EchoSends(cfg, msg, c, instance, lo, hi)) <==> exists r :: lo <= r < hi && r != cfg.myid && r !in cfg.peers
    decreases hi
  {
    if hi > lo {
      EchoSendsPanics(cfg, msg, c, instance, lo, hi - 1);
      if !Panics(EchoSends(cfg, msg, c, instance, lo, hi - 1)) && hi - 1 != cfg.myid && hi - 1 in cfg.peers {
        assert forall r :: lo <= r < hi && r != cfg.myid && r !in cfg.peers ==> r < hi - 1;
      }
    }
  }

  /**
   * Unless they panic, the sends are exactly one ECHO to each other
   * replica in range, in order of id, and none calls `terminate`.
   */
  lemma {:induction false} EchoSendsSpec(cfg: Config, msg: SendMsg, c: Hash, instance: nat, lo: nat, hi: nat)
    requires !Panics(EchoSends(cfg, msg, c, instance, lo, hi))
    ensures var out := EchoSends(cfg, msg, c, instance, lo, hi);
      && (forall e :: e in out ==> (e.SendEcho? && lo <= e.to < hi && e.to != cfg.myid
                                   && e.echo == EchoFor(cfg, msg, c, instance, e.to) && e.instance == instance))
      && (forall r :: lo <= r < hi && r != cfg.myid ==> SendEcho(r, EchoFor(cfg, msg, c, instance, r), instance) in out)
      && Completions(out) == 0
    decreases hi
  {
    if hi > lo {
      var pre := EchoSends(cfg, msg, c, instance, lo, hi - 1);
      assert !Panics(pre);
      EchoSendsSpec(cfg, msg, c, instance, lo, hi - 1);
      var r := hi - 1;
      if r == cfg.myid {
        assert EchoSends(cfg, msg, c, instance, lo, hi) == pre;
      } else {
        var e := SendEcho(r, EchoFor(cfg, msg, c, instance, r), instance);
        assert r in cfg.peers;
        assert EchoSends(cfg, msg, c, instance, lo, hi) == pre + [e];
        CompletionsAppend(pre, [e]);
      }
    }
  }

  /**
   * `start_echo`: the fragment becomes `d_j` and the status ECHO; the
   * ECHOs go to replicas `0 .. n - 1` in order, the replica's own being
   * handled locally (which may already reach READY), and the first
   * replica without a key, or a panic of its own echo, stops the loop.
   */
  ghost predicate StartEchoStep(cfg: Config, s: RbcState, msg: SendMsg, instance: nat, s': RbcState, out: seq<Effect>)
    requires ConfigOk(cfg)
  {
    var c := cfg.commit(msg.dHashes);
    var s0 := s.(fragment := msg.dj, status := Echo);
    var pre := EchoSends(cfg, msg, c, instance, 0, cfg.myid);
    if Panics(pre) then s' == s0 && out == pre
    else
      exists o :: EchoStep(cfg, s0, EchoFor(cfg, msg, c, instance, cfg.myid), instance, s', o)
        && out == pre + o + (if Panics(o) then [] else EchoSends(cfg, msg, c, instance, cfg.myid + 1, cfg.n))
  }

  /**
   * The iterations of `start_echo`'s loop for replicas `lo .. hi - 1`
   * other than its own: an ECHO to each replica with a key, and a panic
   * at the first without one.
   */
  method SendEchoesOn(cfg: Config, msg: SendMsg, c: Hash, instance: nat, lo: nat, hi: nat) returns (out: seq<Effect>)
    requires lo <= hi
    ensures out == EchoSends(cfg, msg, c, instance, lo, hi)
  {
    out := [];
    for replica := lo to hi
      invariant out == EchoSends(cfg, msg, c, instance, lo, replica) && !Panics(out)
    {
      if replica == cfg.myid {
        continue;
      }
      if replica !in cfg.peers {
        out := out + [Panic];
        EchoSendsStops(cfg, msg, c, instance, lo, replica + 1, hi);
        return;
      }
      out := out + [SendEcho(replica, EchoFor(cfg, msg, c, instance, replica), instance)];
    }
  }

  /**
   * `start_echo` on the instance's state: its loop's iterations before
   * the replica's own turn, its own echo, then the iterations after it.
   */
  method StartEchoOn(cfg: Config, s: RbcState, msg: SendMsg, instance: nat) returns (s': RbcState, out: seq<Effect>)
    requires ConfigOk(cfg) && Wf(s)
    ensures StartEchoStep(cfg, s, msg, instance, s', out)
  {
    var c := cfg.commit(msg.dHashes);
    s' := s.(fragment := msg.dj, status := Echo);
    var pre := SendEchoesOn(cfg, msg, c, instance, 0, cfg.myid);
    if Panics(pre) {
      return s', pre;
    }
    var own;
    s', own := HandleEchoOn(cfg, s', EchoFor(cfg, msg, c, instance, cfg.myid), instance);
    if Panics(own) {
      out := pre + own;
    } else {
      var post := SendEchoesOn(cfg, msg, c, instance, cfg.myid + 1, cfg.n);
      out := pre + own + post;
    }
    StartEchoStepIntro(cfg, s, msg, instance, s', own, out);
  }

  /** The replica's own echo step is the witness of `StartEchoStep`. */
  lemma StartEchoStepIntro(cfg: Config, s: RbcState, msg: SendMsg, instance: nat, s': RbcState, own: seq<Effect>, out: seq<Effect>)
    requires ConfigOk(cfg)
    requires var c := cfg.commit(msg.dHashes);
      && !Panics(EchoSends(cfg, msg, c, instance, 0, cfg.myid))
      && EchoStep(cfg, s.(fragment := msg.dj, status := Echo), EchoFor(cfg, msg, c, instance, cfg.myid), instance, s', own)
      && out == EchoSends(cfg, msg, c, instance, 0, cfg.myid) + own
                + (if Panics(own) then [] else EchoSends(cfg, msg, c, instance, cfg.myid + 1, cfg.n))
    ensures StartEchoStep(cfg, s, msg, instance, s', out)
  {
  }

  /** `start_echo` keeps the counts matching the senders and takes `d_j` as fragment. */
  lemma StartEchoStepWf(cfg: Config, s: RbcState, msg: SendMsg, instance: nat, s': RbcState, out: seq<Effect>)
    requires ConfigOk(cfg) && Wf(s) && StartEchoStep(cfg, s, msg, instance, s', out)
    ensures Wf(s') && s'.fragment == msg.dj
    ensures s'.status == Echo || s'.status == Ready || s'.status == Terminated
  {
    var c := cfg.commit(msg.dHashes);
    var s0 := s.(fragment := msg.dj, status := Echo);
    if !Panics(EchoSends(cfg, msg, c, instance, 0, cfg.myid)) {
      var echo := EchoFor(cfg, msg, c, instance, cfg.myid);
      var o :| EchoStep(cfg, s0, echo, instance, s', o);
      EchoStepWf(cfg, s0, echo, instance, s', o);
      EchoStepStatus(cfg, s0, echo, instance, s', o);
      EchoStepKeepsFragment(cfg, s0, echo, instance, s', o);
    }
  }

  /** Echoes never change the fragment. */
  lemma EchoStepKeepsFragment(cfg: Config, s: RbcState, msg: EchoMsg, instance: nat, s': RbcState, out: seq<Effect>)
    requires cfg.f <= cfg.n && EchoStep(cfg, s, msg, instance, s', out)
    ensures s'.fragment == s.fragment
  {
    var t := Echoed(s, msg);
    var counts := t.receivedEchoCount;
    if msg.origin !in Seen(s.echoSenders, msg.c) && s.status == Echo && exists h :: h in counts && counts[h] >= Quorum(cfg) {
      var h :| h in counts && IsMax(counts, counts[h], Some(h)) && counts[h] >= Quorum(cfg)
        && StartReadyStep(cfg, t.(status := Ready), h, instance, s', out);
      StartReadyStepKeeps(cfg, t.(status := Ready), h, instance, s', out);
    }
  }

  // ------------------------------------------------------------------- init

  /** `d_hashes`: the hash of each shard, in order. */
  function Digests(cfg: Config, shards: seq<Bytes>): (d: seq<Hash>)
    ensures |d| == |shards| && forall i :: 0 <= i < |shards| ==> d[i] == cfg.doHash(shards[i])
  {
    seq(|shards|, i requires 0 <= i < |shards| => cfg.doHash(shards[i]))
  }

  /**
   * `handle_init`: a hash vector of the wrong length panics; a shard
   * whose hash is not the one at this replica's index is ignored;
   * otherwise `start_echo` runs.
   */
  ghost predicate InitStep(cfg: Config, s: RbcState, msg: SendMsg, instance: nat, s': RbcState, out: seq<Effect>)
    requires ConfigOk(cfg)
  {
    if |msg.dHashes| != cfg.n then s' == s && out == [Panic]
    else if cfg.doHash(msg.dj.data) != msg.dHashes[cfg.myid] then s' == s && out == []
    else StartEchoStep(cfg, s, msg, instance, s', out)
  }

  /** `handle_init` on the instance's state. */
  method HandleInitOn(cfg: Config, s: RbcState, msg: SendMsg, instance: nat) returns (s': RbcState, out: seq<Effect>)
    requires ConfigOk(cfg) && Wf(s)
    ensures InitStep(cfg, s, msg, instance, s', out)
  {
    if |msg.dHashes| != cfg.n {
      return s, [Panic];
    }
    if cfg.doHash(msg.dj.data) != msg.dHashes[cfg.myid] {
      return s, [];
    }
    s', out := StartEchoOn(cfg, s, msg, instance);
  }

  /** The INIT a broadcaster builds for itself: its own shard numbered `myid`, and all shard hashes. */
  function OwnInit(cfg: Config, shards: seq<Bytes>, instance: nat): SendMsg
    requires cfg.myid < |shards|
  {
    SendMsg(instance, Share(cfg.myid, shards[cfg.myid]), Digests(cfg, shards), cfg.myid)
  }

  /**
   * `start_init`: only from WAITING; INIT with `k = f + 1` of `n` shards
   * (exactly `n` of them), the replica's own shard as fragment, its own
   * INIT handled, and then the INIT broadcast, tagged with `myid`.
   */
  ghost predicate StartInitStep(cfg: Config, s: RbcState, input: Bytes, instance: nat, s': RbcState, out: seq<Effect>)
    requires ConfigOk(cfg)
  {
    var shards := cfg.getShards(input, cfg.f + 1, cfg.n);
    if s.status != Waiting then s' == s && out == [Panic]
    else if |shards| != cfg.n then s' == s.(status := Init) && out == [Panic]
    else
      var m := OwnInit(cfg, shards, instance);
      exists o :: InitStep(cfg, s.(status := Init, fragment := m.dj), m, instance, s', o)
        && out == o + (if Panics(o) then [] else [BroadcastInit(m, cfg.myid)])
  }

  /** `start_init` on the instance's state. */
  method StartInitOn(cfg: Config, s: RbcState, input: Bytes, instance: nat) returns (s': RbcState, out: seq<Effect>)
    requires ConfigOk(cfg) && Wf(s)
    ensures StartInitStep(cfg, s, input, instance, s', out)
  {
    if s.status != Waiting {
      return s, [Panic];
    }
    s' := s.(status := Init);
    var shards := cfg.getShards(input, cfg.f + 1, cfg.n);
    if |shards| != cfg.n {
      return s', [Panic];
    }
    var dHashes := Digests(cfg, shards);
    var myShare := Share(cfg.myid, shards[cfg.myid]);
    s' := s'.(fragment := myShare);
    var sendMsg := SendMsg(instance, myShare, dHashes, cfg.myid);
    s', out := HandleInitOn(cfg, s', sendMsg, instance);
    if !Panics(out) {
      out := out + [BroadcastInit(sendMsg, cfg.myid)];
    }
  }

  /**
   * The broadcaster's own INIT always passes its hash check, so
   * `start_init` goes on to `start_echo` with its own shard and the hash
   * vector of all shards.
   */
  lemma OwnInitAccepted(cfg: Config, s: RbcState, shards: seq<Bytes>, instance: nat, s': RbcState, out: seq<Effect>)
    requires ConfigOk(cfg) && |shards| == cfg.n
    requires InitStep(cfg, s, OwnInit(cfg, shards, instance), instance, s', out)
    ensures StartEchoStep(cfg, s, OwnInit(cfg, shards, instance), instance, s', out)
    ensures OwnInit(cfg, shards, instance).dj == Share(cfg.myid, shards[cfg.myid])
    ensures forall i :: 0 <= i < cfg.n ==> OwnInit(cfg, shards, instance).dHashes[i] == cfg.doHash(shards[i])
  {
  }

  // ----------------------------------------------------------- process_msg

  /**
   * `check_proposal`: `None` where the sender has no key (the lookup
   * panics), otherwise whether the MAC verifies.
   */
  function CheckProposal(cfg: Config, w: WrapperMsg): (r: Option<bool>)
    ensures r.None? <==> w.sender !in cfg.peers
    ensures r.Some? ==> (r.value <==> cfg.macOk(w.sender, w.protmsg, w.mac))
  {
    if w.sender !in cfg.peers then None else Some(cfg.macOk(w.sender, w.protmsg, w.mac))
  }

  /** The instance a message is handled under. */
  function InstanceOf(m: ProtMsg): nat
  {
    match m
    case InitMsg(_, i) => i
    case EchoPm(_, i) => i
    case ReadyPm(_, i) => i
  }

  /** A READY with an empty share, on which `handle_ready` panics before touching the instance map. */
  predicate EmptyReady(m: ProtMsg)
  {
    m.ReadyPm? && m.ready.share.data == []
  }

  /** `process_msg` on the state of the message's instance, once the MAC has verified. */
  ghost predicate Dispatched(cfg: Config, m: ProtMsg, s: RbcState, s': RbcState, out: seq<Effect>)
    requires ConfigOk(cfg)
  {
    match m
    case EchoPm(echo, i) => EchoStep(cfg, s, echo, i, s', out)
    case ReadyPm(ready, _) => ReadyStep(cfg, s, ready, s', out)
    case InitMsg(send, i) => InitStep(cfg, s, send, i, s', out)
  }

  // ---------------------------------------------------------------- context

  /** A replica's ccbrb context. */
  class Context {
    const cfg: Config
    var rbcContext: map<nat, RbcState>
    /** Sends, broadcasts and COMPLETED reports, in order. */
    var outbox: seq<Effect>
    var cancelHandlers: nat
    /** Set when the tokio task has panicked; no handler runs afterwards. */
    var panicked: bool

    /**
     * The configuration is sound, every instance's counts match its
     * senders, one cancel handler is held per send, and the tokio task has
     * panicked exactly when the last effect is a panic.
     */
    ghost predicate Valid()
      reads this
    {
      && ConfigOk(cfg)
      && (forall i :: i in rbcContext ==> Wf(rbcContext[i]))
      && cancelHandlers == Handlers(outbox)
      && panicked == Panics(outbox)
    }

    /** `self.rbc_context.entry(instance_id).or_default()`, read only. */
    function StateOf(instance: nat): RbcState
      reads this
    {
      if instance in rbcContext then rbcContext[instance] else New()
    }

    constructor (cfg: Config)
      requires ConfigOk(cfg)
      ensures Valid() && this.cfg == cfg && rbcContext == map[] && outbox == [] && !panicked
    {
      this.cfg := cfg;
      rbcContext, outbox, cancelHandlers, panicked := map[], [], 0, false;
    }

    /** Stores a handler's new state for the instance and appends its effects. */
    method Commit(instance: nat, s: RbcState, out: seq<Effect>)
      requires Valid() && !panicked && Wf(s)
      modifies this
      ensures Valid() && rbcContext == old(rbcContext)[instance := s] && outbox == old(outbox) + out
      ensures panicked == Panics(out)
    {
      HandlersAppend(outbox, out);
      PanicsAppend(outbox, out);
      rbcContext := rbcContext[instance := s];
      outbox := outbox + out;
      cancelHandlers := cancelHandlers + Handlers(out);
      panicked := Panics(out);
    }

    /** `start_init`. */
    method StartInit(input: Bytes, instance: nat)
      requires Valid() && !panicked
      modifies this
      ensures Valid() && instance in rbcContext && rbcContext == old(rbcContext)[instance := rbcContext[instance]]
      ensures exists out :: outbox == old(outbox) + out && StartInitStep(cfg, old(StateOf(instance)), input, instance, rbcContext[instance], out)
    {
      var s, out := StartInitOn(cfg, StateOf(instance), input, instance);
      StartInitWf(cfg, StateOf(instance), input, instance, s, out);
      Commit(instance, s, out);
    }

    /** `handle_init`. */
    method HandleInit(msg: SendMsg, instance: nat)
      requires Valid() && !panicked
      modifies this
      ensures Valid() && instance in rbcContext && rbcContext == old(rbcContext)[instance := rbcContext[instance]]
      ensures exists out :: outbox == old(outbox) + out && InitStep(cfg, old(StateOf(instance)), msg, instance, rbcContext[instance], out)
    {
      var s, out := HandleInitOn(cfg, StateOf(instance), msg, instance);
      InitStepWf(cfg, StateOf(instance), msg, instance, s, out);
      Commit(instance, s, out);
    }

    /** `handle_echo`. */
    method HandleEcho(msg: EchoMsg, instance: nat)
      requires Valid() && !panicked
      modifies this
      ensures Valid() && instance in rbcContext && rbcContext == old(rbcContext)[instance := rbcContext[instance]]
      ensures exists out :: outbox == old(outbox) + out && EchoStep(cfg, old(StateOf(instance)), msg, instance, rbcContext[instance], out)
    {
      var s, out := HandleEchoOn(cfg, StateOf(instance), msg, instance);
      EchoStepWf(cfg, StateOf(instance), msg, instance, s, out);
      Commit(instance, s, out);
    }

    /**
     * `handle_ready`. Its `assert!` on an empty share comes before
     * `entry()`, so that panic leaves the instance map as it was.
     */
    method HandleReady(msg: ShareMsg, instance: nat)
      requires Valid() && !panicked
      modifies this
      ensures Valid()
      ensures msg.share.data == [] ==> rbcContext == old(rbcContext) && outbox == old(outbox) + [Panic] && panicked
      ensures msg.share.data != [] ==>
        && instance in rbcContext && rbcContext == old(rbcContext)[instance := rbcContext[instance]]
        && exists out :: outbox == old(outbox) + out && ReadyStep(cfg, old(StateOf(instance)), msg, rbcContext[instance], out)
    {
      if msg.share.data == [] {
        HandlersAppend(outbox, [Panic]);
        outbox := outbox + [Panic];
        panicked := true;
        return;
      }
      var s, out := HandleReadyOn(cfg, StateOf(instance), msg);
      ReadyStepWf(cfg, StateOf(instance), msg, s, out);
      Commit(instance, s, out);
    }

    /** `process_msg`: a sender without a key panics, a bad MAC is dropped, and otherwise the message is handled. */
    method ProcessMsg(w: WrapperMsg)
      requires Valid() && !panicked
      modifies this
      ensures Valid()
      ensures CheckProposal(cfg, w) == None ==> rbcContext == old(rbcContext) && outbox == old(outbox) + [Panic]
      ensures CheckProposal(cfg, w) == Some(false) ==> rbcContext == old(rbcContext) && outbox == old(outbox) && !panicked
      ensures CheckProposal(cfg, w) == Some(true) && EmptyReady(w.protmsg) ==>
        rbcContext == old(rbcContext) && outbox == old(outbox) + [Panic] && panicked
      ensures CheckProposal(cfg, w) == Some(true) && !EmptyReady(w.protmsg) ==>
        var i := InstanceOf(w.protmsg);
        && i in rbcContext && rbcContext == old(rbcContext)[i := rbcContext[i]]
        && exists out :: outbox == old(outbox) + out && Dispatched(cfg, w.protmsg, old(StateOf(i)), rbcContext[i], out)
    {
      var ok := CheckProposal(cfg, w);
      if ok.None? {
        HandlersAppend(outbox, [Panic]);
        outbox := outbox + [Panic];
        panicked := true;
        return;
      }
      if !ok.value {
        return;
      }
      match w.protmsg
      case EchoPm(echo, i) => HandleEcho(echo, i);
      case ReadyPm(ready, i) => HandleReady(ready, i);
      case InitMsg(send, i) => HandleInit(send, i);
    }
  }

  /** `handle_init` keeps the counts matching the senders. */
  lemma InitStepWf(cfg: Config, s: RbcState, msg: SendMsg, instance: nat, s': RbcState, out: seq<Effect>)
    requires ConfigOk(cfg) && Wf(s) && InitStep(cfg, s, msg, instance, s', out)
    ensures Wf(s')
  {
    if |msg.dHashes| == cfg.n && cfg.doHash(msg.dj.data) == msg.dHashes[cfg.myid] {
      StartEchoStepWf(cfg, s, msg, instance, s', out);
    }
  }

  /** `start_init` keeps the counts matching the senders. */
  lemma StartInitWf(cfg: Config, s: RbcState, input: Bytes, instance: nat, s': RbcState, out: seq<Effect>)
    requires ConfigOk(cfg) && Wf(s) && StartInitStep(cfg, s, input, instance, s', out)
    ensures Wf(s')
  {
    var shards := cfg.getShards(input, cfg.f + 1, cfg.n);
    if s.status == Waiting && |shards| == cfg.n {
      var m := OwnInit(cfg, shards, instance);
      var o :| InitStep(cfg, s.(status := Init, fragment := m.dj), m, instance, s', o);
      InitStepWf(cfg, s.(status := Init, fragment := m.dj), m, instance, s', o);
    }
  }
}
