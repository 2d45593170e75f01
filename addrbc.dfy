/**
 * The addrbc echo phase (`consensus/addrbc/src/protocol`): a replica
 * erasure-codes the broadcast value, echoes each replica its share,
 * counts echoes per hash from distinct origins, and moves to READY once
 * `n - f` echoes agree. `start_ready` and the READY phase are not part of
 * this model: calling `start_ready` is recorded as an effect.
 *
 * The step relations `EchoStep` and `StartEchoStep` are the
 * specification; `CountEcho` and `EchoAll` are the code, proved to take
 * those steps, and `Context` applies them to `rbc_context`.
 */
module Addrbc {
  import opened Wrappers
  import opened RbcCommon

  /** `Status`; a replica cannot send READY before ECHO. */
  datatype Status = Init | Echo | Ready | Output | Terminated

  /**
   * `RBCState`, with the `sent_ready` flag the echo handler sets as an
   * extra field.
   */
  datatype RbcState = RbcState(
    receivedEchoCount: map<Hash, nat>,
    receivedReadys: map<Hash, seq<Share>>,
    echoSenders: map<Hash, set<nat>>,
    readySenders: map<Hash, set<nat>>,
    fragment: Share,
    outputMessage: Bytes,
    status: Status,
    sentReady: bool)

  /** Echo and ready counts are the numbers of distinct senders per hash. */
  predicate Wf(s: RbcState)
  {
    Counted(s.echoSenders, s.receivedEchoCount) && Counted(s.readySenders, Lengths(s.receivedReadys))
  }

  /** `RBCState::new()`, which `Default` also returns. */
  function New(): (s: RbcState)
    ensures Wf(s)
  {
    RbcState(map[], map[], map[], map[], NoShare, [], Init, false)
  }

  /** A fresh state has no echoes and no readys, so both maxima are `(0, None)`. */
  lemma NewMaxima(count: nat, mode: Option<Hash>)
    ensures IsMax(New().receivedEchoCount, count, mode) ==> count == 0 && mode == None
    ensures IsMax(Lengths(New().receivedReadys), count, mode) ==> count == 0 && mode == None
  {
  }

  /** `get_max_echo_count`. */
  method GetMaxEchoCount(s: RbcState) returns (count: nat, mode: Option<Hash>)
    ensures IsMax(s.receivedEchoCount, count, mode)
    ensures mode.None? <==> forall h :: h in s.receivedEchoCount ==> s.receivedEchoCount[h] == 0
  {
    count, mode := MaxCount(s.receivedEchoCount);
  }

  /** `get_max_ready_count`, over the lengths of the share vectors. */
  method GetMaxReadyCount(s: RbcState) returns (count: nat, mode: Option<Hash>)
    ensures IsMax(Lengths(s.receivedReadys), count, mode)
    ensures mode.None? <==> forall h :: h in s.receivedReadys ==> |s.receivedReadys[h]| == 0
  {
    count, mode := MaxCount(Lengths(s.receivedReadys));
  }

  // ------------------------------------------------------------ messages

  /** `ShareMsg`. */
  datatype ShareMsg = ShareMsg(share: Share, hash: Hash, origin: nat)

  /** What a handler does beyond its own state. */
  datatype Effect =
    | SendEcho(to: nat, msg: ShareMsg, instance: nat)  // `net_send.send` of `ProtMsg::Echo`, MAC-wrapped
    | StartReady(hash: Hash, instance: nat)           // `start_ready`
    | Panic                                           // an `assert!` or index that fails

  function EchoSends(effects: seq<Effect>): seq<Effect>
  {
    if effects == [] then []
    else EchoSends(effects[..|effects| - 1]) + (if effects[|effects| - 1].SendEcho? then [effects[|effects| - 1]] else [])
  }

  lemma {:induction false} EchoSendsAppend(a: seq<Effect>, b: seq<Effect>)
    ensures EchoSends(a + b) == EchoSends(a) + EchoSends(b)
    decreases |b|
  {
    if b != [] {
      var b' := b[..|b| - 1];
      assert (a + b)[..|a + b| - 1] == a + b';
      EchoSendsAppend(a, b');
    } else {
      assert a + b == a;
    }
  }

  // -------------------------------------------------------------- echoes

  /**
   * One echo for `s`: a repeated origin changes nothing; a new one is
   * counted, and when the status is ECHO and some hash has `quorum`
   * echoes, the state moves to READY and `start_ready` is called for a
   * hash of maximal count.
   */
  ghost predicate EchoStep(s: RbcState, msg: ShareMsg, quorum: nat, instance: nat, s': RbcState, out: seq<Effect>)
  {
    var (senders, counts) := Record(s.echoSenders, s.receivedEchoCount, msg.hash, msg.origin);
    var t := s.(echoSenders := senders, receivedEchoCount := counts);
    if msg.origin in Seen(s.echoSenders, msg.hash) then s' == s && out == []
    else if s.status == Echo && exists h :: h in counts && counts[h] >= quorum then
      exists h :: h in counts && IsMax(counts, counts[h], Some(h)) && counts[h] >= quorum
        && s' == t.(status := Ready, sentReady := true) && out == [StartReady(h, instance)]
    else s' == t && out == []
  }

  /** An echo step keeps the counts equal to the numbers of distinct senders. */
  lemma EchoStepWf(s: RbcState, msg: ShareMsg, quorum: nat, instance: nat, s': RbcState, out: seq<Effect>)
    requires Wf(s) && EchoStep(s, msg, quorum, instance, s', out)
    ensures Wf(s')
    ensures msg.hash in s'.echoSenders && msg.origin in s'.echoSenders[msg.hash]
  {
    RecordCounted(s.echoSenders, s.receivedEchoCount, msg.hash, msg.origin);
  }

  /**
   * The only status change an echo makes is ECHO to READY, together with
   * `sent_ready` and one `start_ready` for a hash with at least `quorum`
   * echoes; and it happens exactly when a new origin brings some hash to
   * `quorum` while the status is ECHO.
   */
  lemma EchoStepReady(s: RbcState, msg: ShareMsg, quorum: nat, instance: nat, s': RbcState, out: seq<Effect>)
    requires Wf(s) && EchoStep(s, msg, quorum, instance, s', out)
    ensures s'.status != s.status ==> s.status == Echo && s'.status == Ready && s'.sentReady
    ensures s'.status != s.status <==>
      && msg.origin !in Seen(s.echoSenders, msg.hash)
      && s.status == Echo
      && exists h :: h in s'.receivedEchoCount && s'.receivedEchoCount[h] >= quorum
    ensures out != [] ==> (s'.status != s.status
      && exists h :: h in s'.receivedEchoCount && s'.receivedEchoCount[h] >= quorum && out == [StartReady(h, instance)])
    ensures s'.fragment == s.fragment && s'.receivedReadys == s.receivedReadys && s'.readySenders == s.readySenders
  {
  }

  /**
   * Every effect is an echo sent, or a `start_ready` call of the instance
   * for a hash that has `quorum` echoes in `counts`.
   */
  predicate EchoesOrReady(out: seq<Effect>, counts: map<Hash, nat>, quorum: nat, instance: nat)
  {
    forall e :: e in out ==>
      e.SendEcho? || (e.StartReady? && e.instance == instance && e.hash in counts && counts[e.hash] >= quorum)
  }

  /** Every effect is an echo sent. */
  predicate OnlyEchoes(out: seq<Effect>)
  {
    forall e :: e in out ==> e.SendEcho?
  }

  /** Effects that are each an echo or a quorum `start_ready` stay so when joined. */
  lemma EchoesOrReadyAppend(a: seq<Effect>, b: seq<Effect>, counts: map<Hash, nat>, quorum: nat, instance: nat)
    requires OnlyEchoes(a) || EchoesOrReady(a, counts, quorum, instance)
    requires EchoesOrReady(b, counts, quorum, instance)
    ensures EchoesOrReady(a + b, counts, quorum, instance)
    ensures OnlyEchoes(a) && OnlyEchoes(b) ==> OnlyEchoes(a + b)
  {
    forall e | e in a + b
      ensures e.SendEcho? || (e.StartReady? && e.instance == instance && e.hash in counts && counts[e.hash] >= quorum)
    {
      if e in a {} else { assert e in b; }
    }
  }

  /** The READY bookkeeping and the output message of `s` are those of `s'`. */
  predicate ReadyPartKept(s: RbcState, s': RbcState)
  {
    s'.receivedReadys == s.receivedReadys && s'.readySenders == s.readySenders && s'.outputMessage == s.outputMessage
  }

  /** Handling an ECHO sends no ECHO, so it registers no cancel handler. */
  lemma EchoStepSendsNoEcho(s: RbcState, msg: ShareMsg, quorum: nat, instance: nat, s': RbcState, out: seq<Effect>)
    requires EchoStep(s, msg, quorum, instance, s', out)
    ensures EchoSends(out) == []
  {
    if out != [] {
      assert out[..|out| - 1] == [] && !out[|out| - 1].SendEcho?;
    }
  }

  // ------------------------------------------------------------- shares

  /**
   * The share vector after `FEC::encode`: `n` empty shares, each emitted
   * share stored at its number, or `None` when a number is out of range
   * (the indexing panics).
   */
  function PlaceShares(n: nat, emitted: seq<Share>): (r: Option<seq<Share>>)
    ensures r.Some? ==> |r.value| == n
  {
    if emitted == [] then Some(seq(n, _ => NoShare))
    else
      match PlaceShares(n, emitted[..|emitted| - 1])
      case None => None
      case Some(v) =>
        var s := emitted[|emitted| - 1];
        if s.number < n then Some(v[s.number := s]) else None
  }

  /** The share vector exists exactly when every emitted number is below `n`. */
  lemma {:induction false} PlaceSharesDefined(n: nat, emitted: seq<Share>)
    ensures PlaceShares(n, emitted).Some? <==> forall j :: 0 <= j < |emitted| ==> emitted[j].number < n
    decreases |emitted|
  {
    if emitted != [] {
      var init := emitted[..|emitted| - 1];
      PlaceSharesDefined(n, init);
      assert forall j :: 0 <= j < |init| ==> init[j] == emitted[j];
    }
  }

  /** Each number holds the last share emitted with it. */
  lemma {:induction false} PlaceSharesLast(n: nat, emitted: seq<Share>, j: nat)
    requires PlaceShares(n, emitted).Some? && j < |emitted|
    requires forall k :: j < k < |emitted| ==> emitted[k].number != emitted[j].number
    ensures emitted[j].number < n && PlaceShares(n, emitted).value[emitted[j].number] == emitted[j]
    decreases |emitted|
  {
    var init := emitted[..|emitted| - 1];
    if j < |init| {
      PlaceSharesLast(n, init, j);
    }
  }

  /** A number no share was emitted with holds the empty share. */
  lemma {:induction false} PlaceSharesUntouched(n: nat, emitted: seq<Share>, i: nat)
    requires PlaceShares(n, emitted).Some? && i < n
    requires forall j :: 0 <= j < |emitted| ==> emitted[j].number != i
    ensures PlaceShares(n, emitted).value[i] == NoShare
    decreases |emitted|
  {
    if emitted != [] {
      var init := emitted[..|emitted| - 1];
      assert forall j :: 0 <= j < |init| ==> init[j] == emitted[j];
      PlaceSharesUntouched(n, init, i);
    }
  }

  /** Once an emitted share is out of range, the share vector is never built. */
  lemma {:induction false} PlaceSharesStops(n: nat, emitted: seq<Share>, k: nat)
    requires k <= |emitted| && PlaceShares(n, emitted[..k]).None?
    ensures PlaceShares(n, emitted).None?
    decreases |emitted|
  {
    if k < |emitted| {
      var init := emitted[..|emitted| - 1];
      assert init[..k] == emitted[..k];
      PlaceSharesStops(n, init, k);
    } else {
      assert emitted[..k] == emitted;
    }
  }

  /**
   * The echoes `start_echo` sends, in `sec_key_map` order: every replica
   * but itself gets its own share, or an empty one from a Byzantine
   * replica.
   */
  function Echoes(peers: seq<nat>, myid: nat, byz: bool, shares: seq<Share>, hash: Hash, instance: nat): seq<Effect>
    requires forall i :: 0 <= i < |peers| ==> peers[i] < |shares|
  {
    if peers == [] then []
    else
      var replica := peers[|peers| - 1];
      Echoes(peers[..|peers| - 1], myid, byz, shares, hash, instance)
        + (if replica == myid then []
           else [SendEcho(replica, ShareMsg(if byz then Share(replica, []) else shares[replica], hash, myid), instance)])
  }

  /**
   * Every other replica of `peers` gets exactly one echo, carrying its own
   * share from an honest replica and no data from a Byzantine one; the
   * replica sends none to itself.
   */
  lemma {:induction false} EchoesSpec(peers: seq<nat>, myid: nat, byz: bool, shares: seq<Share>, hash: Hash, instance: nat)
    requires forall i :: 0 <= i < |peers| ==> peers[i] < |shares|
    ensures var out := Echoes(peers, myid, byz, shares, hash, instance);
      && (forall e :: e in out ==> (e.SendEcho? && e.to != myid && e.to in peers && e.instance == instance
            && e.msg.hash == hash && e.msg.origin == myid
            && e.msg.share == (if byz then Share(e.to, []) else shares[e.to])))
      && (forall r :: r in peers && r != myid ==> exists e :: e in out && e.to == r)
    decreases |peers|
  {
    if peers != [] {
      var init := peers[..|peers| - 1];
      EchoesSpec(init, myid, byz, shares, hash, instance);
      forall r | r in peers && r != myid
        ensures exists e :: e in Echoes(peers, myid, byz, shares, hash, instance) && e.to == r
      {
        var i :| 0 <= i < |peers| && peers[i] == r;
        if i < |init| {
          assert r in init;
          var e :| e in Echoes(init, myid, byz, shares, hash, instance) && e.to == r;
          assert e in Echoes(peers, myid, byz, shares, hash, instance);
        }
      }
    }
  }

  /**
   * The body of `handle_echo` on the instance's state: one echo counted,
   * and READY entered when it completes a quorum while in ECHO.
   */
  method CountEcho(s: RbcState, msg: ShareMsg, quorum: nat, instance: nat) returns (s': RbcState, out: seq<Effect>)
    requires Wf(s)
    ensures EchoStep(s, msg, quorum, instance, s', out)
  {
    var (senders, counts) := Record(s.echoSenders, s.receivedEchoCount, msg.hash, msg.origin);
    RecordCounted(s.echoSenders, s.receivedEchoCount, msg.hash, msg.origin);
    if msg.origin in Seen(s.echoSenders, msg.hash) {
      return s, [];
    }
    s' := s.(echoSenders := senders, receivedEchoCount := counts);
    var maxCount, mode := GetMaxEchoCount(s');
    out := [];
    if maxCount >= quorum && s'.status == Echo && mode.Some? {
      s' := s'.(status := Ready, sentReady := true);
      out := [StartReady(mode.value, instance)];
    }
  }

  /**
   * `echo_self`: the replica's own echo, handled as any other. It records
   * the replica among the hash's echo senders, keeps the fragment, and
   * sends no echo.
   */
  method EchoSelf(s: RbcState, myid: nat, hash: Hash, share: Share, quorum: nat, instance: nat) returns (s': RbcState, out: seq<Effect>)
    requires Wf(s)
    ensures EchoStep(s, ShareMsg(share, hash, myid), quorum, instance, s', out)
    ensures Wf(s') && myid in Seen(s'.echoSenders, hash) && s'.fragment == s.fragment
    ensures (s'.echoSenders, s'.receivedEchoCount) == Record(s.echoSenders, s.receivedEchoCount, hash, myid)
    ensures ReadyPartKept(s, s')
    ensures EchoSends(out) == []
    ensures myid in Seen(s.echoSenders, hash) ==> s' == s && out == []
    ensures EchoesOrReady(out, s'.receivedEchoCount, quorum, instance) && |out| <= 1
  {
    s', out := CountEcho(s, ShareMsg(share, hash, myid), quorum, instance);
    EchoStepWf(s, ShareMsg(share, hash, myid), quorum, instance, s', out);
    EchoStepReady(s, ShareMsg(share, hash, myid), quorum, instance, s', out);
  }

  /**
   * The loop of `SendEchoes` after the replicas `done`: the echoes of
   * `done` sent, one handler each; the replica's own echo recorded once
   * it has had its turn; and, before that turn, no effect but echoes.
   */
  ghost predicate SentTo(s: RbcState, done: seq<nat>, myid: nat, byz: bool, shares: seq<Share>, hash: Hash,
                         quorum: nat, instance: nat, s': RbcState, out: seq<Effect>, handlers: nat)
    requires forall j :: 0 <= j < |done| ==> done[j] < |shares|
  {
    && Wf(s') && s'.fragment == s.fragment
    && EchoSends(out) == Echoes(done, myid, byz, shares, hash, instance)
    && handlers == |Echoes(done, myid, byz, shares, hash, instance)|
    && (myid in done ==> myid in Seen(s'.echoSenders, hash))
    && (s'.echoSenders, s'.receivedEchoCount) ==
         (if myid in done then Record(s.echoSenders, s.receivedEchoCount, hash, myid) else (s.echoSenders, s.receivedEchoCount))
    && ReadyPartKept(s, s')
    && EchoesOrReady(out, s'.receivedEchoCount, quorum, instance)
    && (myid !in done ==> OnlyEchoes(out))
  }

  /** Another replica's turn: one echo sent, with one handler. */
  lemma SentToOther(s: RbcState, done: seq<nat>, r: nat, myid: nat, byz: bool, shares: seq<Share>, hash: Hash,
                    quorum: nat, instance: nat, s': RbcState, out: seq<Effect>, handlers: nat)
    requires (forall j :: 0 <= j < |done| ==> done[j] < |shares|) && r < |shares| && r != myid
    requires SentTo(s, done, myid, byz, shares, hash, quorum, instance, s', out, handlers)
    ensures SentTo(s, done + [r], myid, byz, shares, hash, quorum, instance, s',
                   out + [SendEcho(r, ShareMsg(if byz then Share(r, []) else shares[r], hash, myid), instance)], handlers + 1)
  {
    var e := SendEcho(r, ShareMsg(if byz then Share(r, []) else shares[r], hash, myid), instance);
    assert (done + [r])[..|done|] == done;
    assert EchoSends([e]) == [e] && OnlyEchoes([e]);
    EchoSendsAppend(out, [e]);
    EchoesOrReadyAppend(out, [e], s'.receivedEchoCount, quorum, instance);
    assert myid in done + [r] <==> myid in done;
  }

  /** The replica's own turn: `echo_self`, which sends nothing. */
  lemma SentToSelf(s: RbcState, done: seq<nat>, myid: nat, byz: bool, shares: seq<Share>, hash: Hash,
                   quorum: nat, instance: nat, s0: RbcState, out: seq<Effect>, handlers: nat, s1: RbcState, step: seq<Effect>)
    requires (forall j :: 0 <= j < |done| ==> done[j] < |shares|) && myid < |shares|
    requires SentTo(s, done, myid, byz, shares, hash, quorum, instance, s0, out, handlers)
    requires Wf(s1) && myid in Seen(s1.echoSenders, hash) && s1.fragment == s0.fragment
    requires (s1.echoSenders, s1.receivedEchoCount) == Record(s0.echoSenders, s0.receivedEchoCount, hash, myid)
    requires ReadyPartKept(s0, s1) && EchoSends(step) == []
    requires myid in Seen(s0.echoSenders, hash) ==> s1 == s0 && step == []
    requires EchoesOrReady(step, s1.receivedEchoCount, quorum, instance)
    ensures SentTo(s, done + [myid], myid, byz, shares, hash, quorum, instance, s1, out + step, handlers)
  {
    assert (done + [myid])[..|done|] == done;
    assert myid in done + [myid];
    EchoSendsAppend(out, step);
    if myid in done {
      assert s1 == s0 && step == [] && out + step == out;
    } else {
      EchoesOrReadyAppend(out, step, s1.receivedEchoCount, quorum, instance);
    }
  }

  /**
   * The loop over `sec_key_map` in `start_echo`: the replica's own echo is
   * handled locally, every other replica is sent one, and each send adds a
   * cancel handler.
   */
  method SendEchoes(s: RbcState, peers: seq<nat>, myid: nat, byz: bool, shares: seq<Share>, hash: Hash, quorum: nat, instance: nat)
    returns (s': RbcState, out: seq<Effect>, handlers: nat)
    requires Wf(s) && forall i :: 0 <= i < |peers| ==> peers[i] < |shares|
    ensures Wf(s') && s'.fragment == s.fragment
    ensures EchoSends(out) == Echoes(peers, myid, byz, shares, hash, instance)
    ensures handlers == |Echoes(peers, myid, byz, shares, hash, instance)|
    ensures myid in peers ==> myid in Seen(s'.echoSenders, hash)
    ensures (s'.echoSenders, s'.receivedEchoCount) ==
      (if myid in peers then Record(s.echoSenders, s.receivedEchoCount, hash, myid) else (s.echoSenders, s.receivedEchoCount))
    ensures ReadyPartKept(s, s')
    ensures EchoesOrReady(out, s'.receivedEchoCount, quorum, instance)
  {
    s', out, handlers := s, [], 0;
    for i := 0 to |peers|
      invariant SentTo(s, peers[..i], myid, byz, shares, hash, quorum, instance, s', out, handlers)
    {
      var replica := peers[i];
      assert peers[..i + 1] == peers[..i] + [replica];
      if replica == myid {
        ghost var before, sent := s', out;
        var step;
        s', step := EchoSelf(s', myid, hash, shares[myid], quorum, instance);
        SentToSelf(s, peers[..i], myid, byz, shares, hash, quorum, instance, before, sent, handlers, s', step);
        out := out + step;
      } else {
        var msg := ShareMsg(if byz then Share(replica, []) else shares[replica], hash, myid);
        SentToOther(s, peers[..i], replica, myid, byz, shares, hash, quorum, instance, s', out, handlers);
        out := out + [SendEcho(replica, msg, instance)];
        handlers := handlers + 1;
      }
    }
    assert peers[..|peers|] == peers;
  }


  /**
   * The end of `start_echo`: the status becomes ECHO, and READY at once
   * (with `start_ready` for a hash of maximal count) when some hash
   * already has `quorum` echoes.
   */
  method EnterEcho(s: RbcState, quorum: nat, instance: nat) returns (s': RbcState, out: seq<Effect>)
    requires Wf(s)
    ensures Wf(s') && s'.fragment == s.fragment && s'.echoSenders == s.echoSenders
    ensures s'.receivedEchoCount == s.receivedEchoCount && ReadyPartKept(s, s')
    ensures s'.status == Ready <==> exists h :: h in s.receivedEchoCount && s.receivedEchoCount[h] >= quorum
    ensures s'.status == Echo || (s'.status == Ready && s'.sentReady)
    ensures s'.status == Ready <==> out != []
    ensures out != [] ==> exists h ::
      && h in s.receivedEchoCount && IsMax(s.receivedEchoCount, s.receivedEchoCount[h], Some(h))
      && s.receivedEchoCount[h] >= quorum && out == [StartReady(h, instance)]
    ensures EchoSends(out) == []
  {
    s' := s.(status := Echo);
    var maxCount, mode := GetMaxEchoCount(s');
    out := [];
    if maxCount >= quorum && mode.Some? {
      s' := s'.(status := Ready, sentReady := true);
      out := [StartReady(mode.value, instance)];
    }
  }

  /**
   * What `start_echo` does once the shares exist: the replica keeps its
   * own share as fragment; unless crashed it sends every other replica its
   * echo and counts its own (a crashed replica neither sends nor counts);
   * and the status ends in ECHO, or in READY with `sent_ready` exactly
   * when some hash has `quorum` echoes. Its only effects besides the
   * echoes are `start_ready` calls for hashes with `quorum` echoes; in ECHO
   * there are none, and READY ends with one for a hash of maximal count.
   */
  ghost predicate StartEchoStep(s: RbcState, quorum: nat, myid: nat, byz: bool, crash: bool, peers: seq<nat>,
                                shares: seq<Share>, hash: Hash, instance: nat, s': RbcState, out: seq<Effect>)
    requires forall i :: 0 <= i < |peers| ==> peers[i] < |shares|
    requires myid < |shares|
  {
    && Wf(s')
    && s'.fragment == shares[myid]
    && EchoSends(out) == (if crash then [] else Echoes(peers, myid, byz, shares, hash, instance))
    && (crash ==> s'.echoSenders == s.echoSenders)
    && (!crash && myid in peers ==> myid in Seen(s'.echoSenders, hash))
    && (s'.echoSenders, s'.receivedEchoCount) ==
      (if !crash && myid in peers then Record(s.echoSenders, s.receivedEchoCount, hash, myid)
       else (s.echoSenders, s.receivedEchoCount))
    && ReadyPartKept(s, s')
    && (s'.status == Ready <==> exists h :: h in s'.receivedEchoCount && s'.receivedEchoCount[h] >= quorum)
    && (s'.status == Echo || (s'.status == Ready && s'.sentReady))
    && EchoesOrReady(out, s'.receivedEchoCount, quorum, instance)
    && (s'.status == Echo ==> OnlyEchoes(out))
    && (s'.status == Ready ==> exists h ::
          && h in s'.receivedEchoCount && IsMax(s'.receivedEchoCount, s'.receivedEchoCount[h], Some(h))
          && s'.receivedEchoCount[h] >= quorum && |out| > 0 && out[|out| - 1] == StartReady(h, instance))
  }

  /** The steps of `start_echo` after encoding, on the instance's state. */
  method EchoAll(s: RbcState, quorum: nat, myid: nat, byz: bool, crash: bool, peers: seq<nat>,
                 shares: seq<Share>, hash: Hash, instance: nat) returns (s': RbcState, out: seq<Effect>, handlers: nat)
    requires Wf(s) && myid < |shares| && forall i :: 0 <= i < |peers| ==> peers[i] < |shares|
    ensures StartEchoStep(s, quorum, myid, byz, crash, peers, shares, hash, instance, s', out)
    ensures handlers == |EchoSends(out)|
  {
    s' := s.(fragment := shares[myid]);
    var sent: seq<Effect> := [];
    handlers := 0;
    if !crash {
      s', sent, handlers := SendEchoes(s', peers, myid, byz, shares, hash, quorum, instance);
    }
    var ready;
    s', ready := EnterEcho(s', quorum, instance);
    out := sent + ready;
    EchoSendsAppend(sent, ready);
  }

  // ------------------------------------------------------------ context

  /** A replica's RBC context for the echo phase. */
  class Context {
    const myid: nat
    const numNodes: nat
    const numFaults: nat
    const byz: bool
    const crash: bool
    /** The replicas of `sec_key_map`, in its iteration order. */
    const peers: seq<nat>
    /** `do_hash`. */
    const doHash: Bytes -> Hash
    /** Whether `FEC::new(num_faults, num_nodes)` fails. */
    const fecFails: bool
    /** The shares `FEC::encode` hands to its output callback, in order. */
    const encode: Bytes -> seq<Share>

    var rbcContext: map<nat, RbcState>
    var outbox: seq<Effect>
    var cancelHandlers: nat
    /** Set when the tokio task has panicked; no handler runs afterwards. */
    var panicked: bool

    /**
     * The configuration the replica is started with, every instance's
     * counts matching its senders, and one cancel handler kept for each
     * ECHO sent.
     */
    ghost predicate Valid()
      reads this
    {
      && myid < numNodes && numFaults <= numNodes
      && (forall i :: 0 <= i < |peers| ==> peers[i] < numNodes)
      && (forall i :: i in rbcContext ==> Wf(rbcContext[i]))
      && cancelHandlers == |EchoSends(outbox)|
    }

    /** `self.rbc_context.entry(instance_id).or_default()`, read only. */
    function StateOf(instance: nat): RbcState
      reads this
    {
      if instance in rbcContext then rbcContext[instance] else New()
    }

    constructor (myid: nat, numNodes: nat, numFaults: nat, byz: bool, crash: bool, peers: seq<nat>,
                 doHash: Bytes -> Hash, fecFails: bool, encode: Bytes -> seq<Share>)
      requires myid < numNodes && numFaults <= numNodes
      requires forall i :: 0 <= i < |peers| ==> peers[i] < numNodes
      ensures Valid() && rbcContext == map[] && outbox == [] && cancelHandlers == 0 && !panicked
      ensures this.myid == myid && this.numNodes == numNodes && this.numFaults == numFaults
      ensures this.byz == byz && this.crash == crash && this.peers == peers
      ensures this.doHash == doHash && this.fecFails == fecFails && this.encode == encode
    {
      this.myid, this.numNodes, this.numFaults := myid, numNodes, numFaults;
      this.byz, this.crash, this.peers := byz, crash, peers;
      this.doHash, this.fecFails, this.encode := doHash, fecFails, encode;
      rbcContext, outbox, cancelHandlers, panicked := map[], [], 0, false;
    }

    /** `handle_echo`. */
    method HandleEcho(msg: ShareMsg, instance: nat)
      requires Valid() && !panicked
      modifies this
      ensures Valid() && !panicked && cancelHandlers == old(cancelHandlers)
      ensures instance in rbcContext && rbcContext == old(rbcContext)[instance := rbcContext[instance]]
      ensures |outbox| >= |old(outbox)| && outbox[..|old(outbox)|] == old(outbox)
      ensures EchoStep(old(StateOf(instance)), msg, numNodes - numFaults, instance, rbcContext[instance], outbox[|old(outbox)|..])
    {
      var s, out := CountEcho(StateOf(instance), msg, numNodes - numFaults, instance);
      EchoStepWf(StateOf(instance), msg, numNodes - numFaults, instance, s, out);
      EchoStepSendsNoEcho(StateOf(instance), msg, numNodes - numFaults, instance, s, out);
      Commit(instance, s, out, 0);
    }

    /**
     * `start_echo`: creates the instance's state, encodes the value and
     * takes the replica's own share as its fragment, sends the echoes
     * (handling its own locally) unless crashed, then moves to ECHO and
     * straight on to READY when `n - f` echoes already agree.
     */
    method StartEcho(msgContent: Bytes, instance: nat)
      requires Valid() && !panicked
      modifies this
      ensures Valid()
      ensures instance in rbcContext && rbcContext == old(rbcContext)[instance := rbcContext[instance]]
      ensures |outbox| >= |old(outbox)| && outbox[..|old(outbox)|] == old(outbox)
      ensures cancelHandlers == old(cancelHandlers) + |EchoSends(outbox[|old(outbox)|..])|
      ensures fecFails ==> !panicked && rbcContext[instance] == old(StateOf(instance)) && outbox == old(outbox)
      ensures panicked <==> !fecFails && (|msgContent| == 0 || PlaceShares(numNodes, encode(msgContent)).None?)
      ensures panicked ==> outbox == old(outbox) + [Panic] && rbcContext[instance] == old(StateOf(instance))
      ensures !fecFails && !panicked ==>
        StartEchoStep(old(StateOf(instance)), numNodes - numFaults, myid, byz, crash, peers,
                      PlaceShares(numNodes, encode(msgContent)).value, doHash(msgContent), instance,
                      rbcContext[instance], outbox[|old(outbox)|..])
    {
      var hash := doHash(msgContent);
      Entry(instance);
      ghost var s0 := rbcContext[instance];
      assert s0 == old(StateOf(instance));
      if fecFails {
        assert outbox[|old(outbox)|..] == [];
        return;
      }
      EncodeAndEcho(msgContent, hash, instance);
    }

    /** `self.rbc_context.entry(instance_id).or_default()`. */
    method Entry(instance: nat)
      requires Valid()
      modifies this
      ensures Valid() && rbcContext == old(rbcContext)[instance := old(StateOf(instance))]
      ensures outbox == old(outbox) && cancelHandlers == old(cancelHandlers) && panicked == old(panicked)
    {
      rbcContext := rbcContext[instance := StateOf(instance)];
    }

    /** The part of `start_echo` after `FEC::new`: the `assert!` on the value, encoding, then the echoes. */
    method EncodeAndEcho(msgContent: Bytes, hash: Hash, instance: nat)
      requires Valid() && !panicked && instance in rbcContext
      modifies this
      ensures Valid()
      ensures instance in rbcContext && rbcContext == old(rbcContext)[instance := rbcContext[instance]]
      ensures |outbox| >= |old(outbox)| && outbox[..|old(outbox)|] == old(outbox)
      ensures cancelHandlers == old(cancelHandlers) + |EchoSends(outbox[|old(outbox)|..])|
      ensures panicked <==> |msgContent| == 0 || PlaceShares(numNodes, encode(msgContent)).None?
      ensures panicked ==> outbox == old(outbox) + [Panic] && rbcContext == old(rbcContext)
      ensures !panicked ==>
        StartEchoStep(old(rbcContext[instance]), numNodes - numFaults, myid, byz, crash, peers,
                      PlaceShares(numNodes, encode(msgContent)).value, hash, instance,
                      rbcContext[instance], outbox[|old(outbox)|..])
    {
      if |msgContent| == 0 {
        Panics();
        return;
      }
      var shares := EncodeShares(msgContent);
      if shares.None? {
        Panics();
        return;
      }
      EchoShares(shares.value, hash, instance);
    }

    /**
     * Writes back an instance's state and the effects of a handler, with
     * the cancel handlers of its ECHO sends.
     */
    method Commit(instance: nat, s: RbcState, out: seq<Effect>, handlers: nat)
      requires Valid() && Wf(s) && handlers == |EchoSends(out)|
      modifies this
      ensures Valid() && panicked == old(panicked) && cancelHandlers == old(cancelHandlers) + handlers
      ensures rbcContext == old(rbcContext)[instance := s]
      ensures |outbox| >= |old(outbox)| && outbox[..|old(outbox)|] == old(outbox) && outbox[|old(outbox)|..] == out
    {
      EchoSendsAppend(outbox, out);
      rbcContext := rbcContext[instance := s];
      outbox := outbox + out;
      cancelHandlers := cancelHandlers + handlers;
    }

    /** A failed `assert!` or index: the tokio task stops. */
    method Panics()
      requires Valid() && !panicked
      modifies this
      ensures Valid() && panicked && rbcContext == old(rbcContext) && outbox == old(outbox) + [Panic]
      ensures cancelHandlers == old(cancelHandlers) + |EchoSends(outbox[|old(outbox)|..])| == old(cancelHandlers)
    {
      EchoSendsAppend(outbox, [Panic]);
      assert EchoSends([Panic]) == EchoSends([]) + [];
      outbox := outbox + [Panic];
      assert outbox[|old(outbox)|..] == [Panic];
      panicked := true;
    }

    /** The part of `start_echo` after encoding, on the instance's state. */
    method EchoShares(shares: seq<Share>, hash: Hash, instance: nat)
      requires Valid() && !panicked && |shares| == numNodes && instance in rbcContext
      modifies this
      ensures Valid() && !panicked
      ensures instance in rbcContext && rbcContext == old(rbcContext)[instance := rbcContext[instance]]
      ensures |outbox| >= |old(outbox)| && outbox[..|old(outbox)|] == old(outbox)
      ensures StartEchoStep(old(rbcContext[instance]), numNodes - numFaults, myid, byz, crash, peers, shares, hash, instance,
                            rbcContext[instance], outbox[|old(outbox)|..])
      ensures cancelHandlers == old(cancelHandlers) + |EchoSends(outbox[|old(outbox)|..])|
    {
      var s, out, handlers := EchoAll(rbcContext[instance], numNodes - numFaults, myid, byz, crash, peers, shares, hash, instance);
      Commit(instance, s, out, handlers);
    }

    /** The output callback of `FEC::encode`: `shares[s.number] = s` for each share emitted. */
    method EncodeShares(msgContent: Bytes) returns (shares: Option<seq<Share>>)
      ensures shares == PlaceShares(numNodes, encode(msgContent))
    {
      var emitted := encode(msgContent);
      var v := seq(numNodes, _ => NoShare);
      for j := 0 to |emitted|
        invariant PlaceShares(numNodes, emitted[..j]) == Some(v)
      {
        var share := emitted[j];
        assert emitted[..j + 1][..j] == emitted[..j];
        if share.number >= numNodes {
          PlaceSharesStops(numNodes, emitted, j + 1);
          return None;
        }
        v := v[share.number := share];
      }
      assert emitted[..|emitted|] == emitted;
      shares := Some(v);
    }
  }
}
