/**
 * The ctrbc ECHO and READY handlers (`consensus/ctrbc/src/protocol`): a
 * replica stores the first shard each origin echoes for a Merkle root,
 * recovers the value from exactly `n - f` echoes, handles and broadcasts
 * its own READY, amplifies READY at exactly `f + 1` readys, and
 * terminates at `n - f` readys or, once the root is known, at `n`
 * echoes. `broadcast` and `terminate` are recorded as effects.
 *
 * The step functions `EchoNext`, `ReadyNext` and `Settle` are the
 * specification; the methods `EchoOn`, `ReadyOn` and `SettleOn` are the
 * handlers' code, each proved to return what its step function gives,
 * and the lemmas state the protocol's properties about the step
 * functions.
 */
module Ctrbc {
  import opened Wrappers
  import opened RbcCommon

  /** `CTRBCMsg`: a shard, the Merkle proof that it belongs under a root, and the sender. */
  datatype CtrbcMsg = CtrbcMsg(shard: Bytes, mp: Proof, origin: nat)

  /** The per-instance state the two handlers read and write. */
  datatype RbcState = RbcState(
    echos: map<Hash, map<nat, Bytes>>,
    readys: map<Hash, map<nat, Bytes>>,
    echoRoot: Option<Hash>,
    fragment: Option<(Bytes, Proof)>,
    message: Option<Bytes>,
    terminated: bool)

  /** The state `entry(instance_id).or_default()` creates. */
  function New(): RbcState
  {
    RbcState(map[], map[], None, None, None, false)
  }

  /** What a handler does beyond its own state. */
  datatype Effect =
    | BroadcastReady(msg: CtrbcMsg, instance: nat)  // `broadcast(ProtMsg::Ready(..))`
    | Terminate(instance: nat, message: Bytes)       // `terminate`
    | Panic                                          // an `unwrap` or index that fails

  /**
   * The replica's constants and the libraries it calls: `verify` is
   * `verify_mr_proof`, `reconstruct` is `reconstruct_data` (the slot
   * vector it leaves, `None` for an error) and `genProof(shards, i)` is
   * `construct_merkle_tree(shards).gen_proof(i)`.
   */
  datatype Config = Config(
    myid: nat, numNodes: nat, numFaults: nat, crash: bool,
    verify: CtrbcMsg -> bool,
    reconstruct: seq<Option<Bytes>> -> Option<seq<Option<Bytes>>>,
    genProof: (seq<Bytes>, nat) -> Proof)

  /** A node is started with no more faults than nodes. */
  predicate ConfigOk(cfg: Config)
  {
    cfg.numFaults <= cfg.numNodes
  }

  /**
   * The state invariant: READY senders per root are among that root's
   * ECHO senders, apart from the replica itself; a known echo root comes
   * with a fragment and the value; a terminated instance has a value.
   */
  predicate Wf(cfg: Config, s: RbcState)
  {
    && (forall r :: r in s.readys ==> r in s.echos && s.readys[r].Keys <= s.echos[r].Keys + {cfg.myid})
    && (s.echoRoot.Some? ==> s.fragment.Some? && s.message.Some?)
    && (s.terminated ==> s.message.Some?)
  }

  /** A fresh state satisfies the invariant. */
  lemma NewWf(cfg: Config)
    ensures Wf(cfg, New()) && !New().terminated && New().echoRoot.None?
  {
  }

  /** The proof the replica sends with its share: the stored one when it is for `root`, else a new one. */
  function MyProof(cfg: Config, s: RbcState, root: Hash, shards: seq<Bytes>): Proof
  {
    if s.fragment.Some? && s.fragment.value.1.root == root then s.fragment.value.1
    else cfg.genProof(shards, cfg.myid)
  }

  // -------------------------------------------------------------- READY

  /** `entry(root).or_default()` on both sender maps. */
  function Touch(s: RbcState, root: Hash): (t: RbcState)
    ensures t.echos.Keys == s.echos.Keys + {root} && t.readys.Keys == s.readys.Keys + {root}
    ensures forall r :: r in s.echos ==> t.echos[r] == s.echos[r]
    ensures forall r :: r in s.readys ==> t.readys[r] == s.readys[r]
    ensures t.echoRoot == s.echoRoot && t.fragment == s.fragment && t.message == s.message && t.terminated == s.terminated
  {
    s.(echos := s.echos[root := Inner(s.echos, root)], readys := s.readys[root := Inner(s.readys, root)])
  }

  /**
   * The proof check of `handle_ready`: a message passes when its proof
   * verifies or when it repeats the shard its origin echoed for the root.
   */
  predicate ReadyAccepted(cfg: Config, es: map<nat, Bytes>, msg: CtrbcMsg)
  {
    cfg.verify(msg) || (msg.origin in es && es[msg.origin] == msg.shard)
  }

  /**
   * The bookkeeping of `handle_ready`: both entries created, and the
   * shard recorded only when its origin has echoed for the root.
   */
  function Recorded(s: RbcState, msg: CtrbcMsg): (u: RbcState)
    ensures msg.mp.root in u.readys && u.echos == Touch(s, msg.mp.root).echos
    ensures u.echoRoot == s.echoRoot && u.fragment == s.fragment && u.message == s.message && u.terminated == s.terminated
  {
    var root := msg.mp.root;
    var t := Touch(s, root);
    if msg.origin in t.echos[root] then t.(readys := t.readys[root := Put(t.readys[root], msg.origin, msg.shard)]) else t
  }

  /**
   * The bookkeeping keeps the invariant: a READY shard is recorded only
   * for an origin that echoed for the same root.
   */
  lemma RecordedWf(cfg: Config, s: RbcState, msg: CtrbcMsg)
    requires Wf(cfg, s)
    ensures Wf(cfg, Touch(s, msg.mp.root)) && Wf(cfg, Recorded(s, msg))
  {
    var root := msg.mp.root;
    var t := Touch(s, root);
    assert Wf(cfg, t) by {
      forall r | r in t.readys ensures r in t.echos && t.readys[r].Keys <= t.echos[r].Keys + {cfg.myid} {
        if r != root {
          assert t.readys[r] == s.readys[r];
        }
      }
    }
    var u := Recorded(s, msg);
    forall r | r in u.readys ensures r in u.echos && u.readys[r].Keys <= u.echos[r].Keys + {cfg.myid} {
      if r != root {
        assert u.readys[r] == t.readys[r];
      }
    }
  }

  /**
   * `handle_ready`. A terminated instance ignores it. A message that
   * fails the proof check is dropped; one that passes is recorded only
   * when its origin has echoed for the root. Then the thresholds apply.
   */
  function ReadyNext(cfg: Config, s: RbcState, msg: CtrbcMsg, instance: nat): (RbcState, seq<Effect>)
    requires ConfigOk(cfg)
  {
    if s.terminated then (s, [])
    else if !ReadyAccepted(cfg, Inner(s.echos, msg.mp.root), msg) then (Touch(s, msg.mp.root), [])
    else ReadyCounted(cfg, Recorded(s, msg), msg.mp.root, instance)
  }

  /**
   * The READY thresholds on the readys recorded for `root`: at exactly
   * `f + 1` the value is recovered unless the echo phase settled on this
   * root; at exactly `n - f` the instance terminates with its value (the
   * `unwrap` panics when there is none).
   */
  function ReadyCounted(cfg: Config, s: RbcState, root: Hash, instance: nat): (RbcState, seq<Effect>)
    requires ConfigOk(cfg) && root in s.readys
  {
    var size := |s.readys[root]|;
    if size == cfg.numFaults + 1 then
      if s.echoRoot == Some(root) then (s, []) else Amplify(cfg, s, root, instance)
    else if size == cfg.numNodes - cfg.numFaults && !s.terminated then
      if s.message.None? then (s, [Panic])
      else (s.(terminated := true), [Terminate(instance, s.message.value)])
    else (s, [])
  }

  /**
   * READY amplification: recover the value from the readys, store the
   * replica's share and proof, the value and its own READY, and broadcast
   * that READY unless crashed.
   */
  function Amplify(cfg: Config, s: RbcState, root: Hash, instance: nat): (RbcState, seq<Effect>)
    requires ConfigOk(cfg) && root in s.readys
  {
    match Recover(cfg.reconstruct, s.readys[root], cfg.numNodes, cfg.numFaults, cfg.myid)
    case Failed => (s, [])
    case Crashed => (s, [Panic])
    case Recovered(shards, message, myShare) =>
      var proof := MyProof(cfg, s, root, shards);
      (s.(fragment := Some((myShare, proof)), message := Some(message),
          readys := s.readys[root := Put(s.readys[root], cfg.myid, myShare)]),
       if cfg.crash then [] else [BroadcastReady(CtrbcMsg(myShare, proof, cfg.myid), instance)])
  }

  /**
   * Amplification keeps the invariant, the echoes, the echo root and the
   * termination flag, and adds only the replica's own share under `root`.
   */
  lemma AmplifyKeeps(cfg: Config, s: RbcState, root: Hash, instance: nat)
    requires ConfigOk(cfg) && Wf(cfg, s) && root in s.readys
    ensures var (s', out) := Amplify(cfg, s, root, instance);
      && Wf(cfg, s') && s'.echos == s.echos && s'.echoRoot == s.echoRoot && s'.terminated == s.terminated
      && s'.readys.Keys == s.readys.Keys
      && (Inner(s'.readys, root) == s.readys[root] || exists share :: Inner(s'.readys, root) == Put(s.readys[root], cfg.myid, share))
      && (forall r :: r in s.readys && r != root ==> Inner(s'.readys, r) == s.readys[r])
  {
    var r := Recover(cfg.reconstruct, s.readys[root], cfg.numNodes, cfg.numFaults, cfg.myid);
    if r.Recovered? {
      var proof := MyProof(cfg, s, root, r.shards);
      var s' := s.(fragment := Some((r.myShare, proof)), message := Some(r.message),
                   readys := s.readys[root := Put(s.readys[root], cfg.myid, r.myShare)]);
      assert Amplify(cfg, s, root, instance).0 == s';
      assert Inner(s'.readys, root) == Put(s.readys[root], cfg.myid, r.myShare);
    }
  }

  /**
   * Amplification panics exactly when the shards cannot be recovered into
   * a message, and what it broadcasts is its own share, once, when not
   * crashed.
   */
  lemma AmplifyOutput(cfg: Config, s: RbcState, root: Hash, instance: nat)
    requires ConfigOk(cfg) && root in s.readys
    ensures var (s', out) := Amplify(cfg, s, root, instance);
      && (Panic in out <==> Recover(cfg.reconstruct, s.readys[root], cfg.numNodes, cfg.numFaults, cfg.myid).Crashed?)
      && (forall e :: e in out ==> e.BroadcastReady? || e.Panic?)
      && (out != [] && out[0].BroadcastReady? ==>
            && !cfg.crash && out == [out[0]] && out[0].msg.origin == cfg.myid && out[0].instance == instance
            && Inner(s'.readys, root) == Put(s.readys[root], cfg.myid, out[0].msg.shard))
  {
    var r := Recover(cfg.reconstruct, s.readys[root], cfg.numNodes, cfg.numFaults, cfg.myid);
    if r.Recovered? {
      var proof := MyProof(cfg, s, root, r.shards);
      var s' := s.(fragment := Some((r.myShare, proof)), message := Some(r.message),
                   readys := s.readys[root := Put(s.readys[root], cfg.myid, r.myShare)]);
      assert Amplify(cfg, s, root, instance).0 == s';
    }
  }

  /**
   * The thresholds keep the invariant, the echoes and the echo root; the
   * termination flag is set only at exactly `n - f` readys for `root`,
   * together with one `terminate` call with the value held.
   */
  lemma ReadyCountedProperties(cfg: Config, s: RbcState, root: Hash, instance: nat)
    requires ConfigOk(cfg) && Wf(cfg, s) && root in s.readys && !s.terminated
    ensures var (s', out) := ReadyCounted(cfg, s, root, instance);
      && Wf(cfg, s') && s'.echos == s.echos && s'.echoRoot == s.echoRoot
      && (s'.terminated ==>
            && s.message.Some? && |s.readys[root]| == cfg.numNodes - cfg.numFaults
            && s'.readys == s.readys && s'.message == s.message && out == [Terminate(instance, s.message.value)])
      && (!s'.terminated ==> forall e :: e in out ==> e.BroadcastReady? || e.Panic?)
  {
    var size := |s.readys[root]|;
    if size == cfg.numFaults + 1 && s.echoRoot != Some(root) {
      AmplifyKeeps(cfg, s, root, instance);
      AmplifyOutput(cfg, s, root, instance);
    }
  }

  /**
   * A READY keeps the invariant (READY senders stay among the ECHO
   * senders, apart from the replica itself), never changes the echo
   * root or the echoes already stored, and leaves a terminated instance
   * alone. It terminates only an instance that was running, when exactly
   * `n - f` readys are recorded for its root, with one `terminate` call.
   */
  lemma ReadyNextProperties(cfg: Config, s: RbcState, msg: CtrbcMsg, instance: nat)
    requires ConfigOk(cfg) && Wf(cfg, s)
    ensures var (s', out) := ReadyNext(cfg, s, msg, instance);
      && Wf(cfg, s')
      && s'.echoRoot == s.echoRoot
      && (forall r :: r in s.echos ==> r in s'.echos && s'.echos[r] == s.echos[r])
      && (s.terminated ==> s' == s && out == [])
      && (s'.terminated != s.terminated ==>
            && s.message.Some? && s'.message == s.message
            && |Inner(s'.readys, msg.mp.root)| == cfg.numNodes - cfg.numFaults
            && out == [Terminate(instance, s.message.value)])
      && (s'.terminated == s.terminated ==> forall e :: e in out ==> e.BroadcastReady? || e.Panic?)
  {
    if !s.terminated {
      RecordedWf(cfg, s, msg);
      if ReadyAccepted(cfg, Inner(s.echos, msg.mp.root), msg) {
        ReadyCountedProperties(cfg, Recorded(s, msg), msg.mp.root, instance);
      }
    }
  }

  /**
   * READY amplification happens only in a replica that is not crashed,
   * for a root the echo phase has not settled on, and the READY carries
   * the replica's own share, which is recorded on top of exactly `f + 1`
   * readys.
   */
  lemma ReadyNextAmplifies(cfg: Config, s: RbcState, msg: CtrbcMsg, instance: nat)
    requires ConfigOk(cfg) && Wf(cfg, s)
    ensures var (s', out) := ReadyNext(cfg, s, msg, instance);
      forall e :: e in out && e.BroadcastReady? ==>
        && !cfg.crash && !s.terminated && s.echoRoot != Some(msg.mp.root)
        && e.msg.origin == cfg.myid && e.instance == instance
        && exists rs :: |rs| == cfg.numFaults + 1 && Inner(s'.readys, msg.mp.root) == Put(rs, cfg.myid, e.msg.shard)
  {
    var root := msg.mp.root;
    if !s.terminated && ReadyAccepted(cfg, Inner(s.echos, root), msg) {
      var u := Recorded(s, msg);
      assert ReadyNext(cfg, s, msg, instance) == ReadyCounted(cfg, u, root, instance);
      ReadyCountedAmplifies(cfg, u, root, instance);
    }
  }

  /** The thresholds broadcast a READY only by amplifying `f + 1` readys for a root the echo phase has not settled on. */
  lemma ReadyCountedAmplifies(cfg: Config, s: RbcState, root: Hash, instance: nat)
    requires ConfigOk(cfg) && root in s.readys
    ensures var (s', out) := ReadyCounted(cfg, s, root, instance);
      forall e :: e in out && e.BroadcastReady? ==>
        && !cfg.crash && s.echoRoot != Some(root)
        && e.msg.origin == cfg.myid && e.instance == instance
        && exists rs :: |rs| == cfg.numFaults + 1 && Inner(s'.readys, root) == Put(rs, cfg.myid, e.msg.shard)
  {
    if |s.readys[root]| == cfg.numFaults + 1 && s.echoRoot != Some(root) {
      assert ReadyCounted(cfg, s, root, instance) == Amplify(cfg, s, root, instance);
      AmplifyWitness(cfg, s, root, instance);
    }
  }

  /** The `f + 1` readys an amplification adds the replica's share to. */
  lemma AmplifyWitness(cfg: Config, s: RbcState, root: Hash, instance: nat)
    requires ConfigOk(cfg) && root in s.readys && |s.readys[root]| == cfg.numFaults + 1
    ensures var (s', out) := Amplify(cfg, s, root, instance);
      forall e :: e in out && e.BroadcastReady? ==>
        && !cfg.crash && e.msg.origin == cfg.myid && e.instance == instance
        && exists rs :: |rs| == cfg.numFaults + 1 && Inner(s'.readys, root) == Put(rs, cfg.myid, e.msg.shard)
  {
    var (s', out) := Amplify(cfg, s, root, instance);
    if out != [] && out[0].BroadcastReady? {
      assert Inner(s'.readys, root) == Put(s.readys[root], cfg.myid, out[0].msg.shard);
    }
  }

  // --------------------------------------------------------------- ECHO

  /**
   * `handle_echo`. A terminated instance ignores it. A new origin's shard
   * is stored only when its proof verifies; a repeated origin keeps its
   * first shard and needs no proof. Then the thresholds apply.
   */
  function EchoNext(cfg: Config, s: RbcState, msg: CtrbcMsg, instance: nat): (RbcState, seq<Effect>)
    requires ConfigOk(cfg)
  {
    if s.terminated then (s, [])
    else
      var root := msg.mp.root;
      var es := Inner(s.echos, root);
      if msg.origin !in es && !cfg.verify(msg) then (s.(echos := s.echos[root := es]), [])
      else if msg.origin in es then EchoCounted(cfg, s.(echos := s.echos[root := es]), root, instance)
      else EchoCounted(cfg, s.(echos := s.echos[root := Put(es, msg.origin, msg.shard)]), root, instance)
  }

  /**
   * The ECHO thresholds on the shards stored for `root`: at exactly
   * `n - f`, while no root is settled, the value is recovered; otherwise
   * at `n`, with a settled root and a running instance, the instance
   * terminates, and calls `terminate` unless crashed.
   */
  function EchoCounted(cfg: Config, s: RbcState, root: Hash, instance: nat): (RbcState, seq<Effect>)
    requires ConfigOk(cfg) && root in s.echos
  {
    var size := |s.echos[root]|;
    if size == cfg.numNodes - cfg.numFaults && s.echoRoot.None? then Settle(cfg, s, root, instance)
    else if size == cfg.numNodes && s.echoRoot.Some? && !s.terminated then
      var s' := s.(terminated := true);
      if cfg.crash then (s', [])
      else if s.message.None? then (s', [Panic])
      else (s', [Terminate(instance, s.message.value)])
    else (s, [])
  }

  /**
   * The end of the echo phase: recover the value from the `n - f`
   * shards, settle the root and store the fragment and value, handle the
   * replica's own READY and then broadcast it (the broadcast does not
   * depend on `crash`).
   */
  function Settle(cfg: Config, s: RbcState, root: Hash, instance: nat): (RbcState, seq<Effect>)
    requires ConfigOk(cfg) && root in s.echos
  {
    match Recover(cfg.reconstruct, s.echos[root], cfg.numNodes, cfg.numFaults, cfg.myid)
    case Failed => (s, [])
    case Crashed => (s, [Panic])
    case Recovered(shards, message, myShare) =>
      var proof := MyProof(cfg, s, root, shards);
      var own := CtrbcMsg(myShare, proof, cfg.myid);
      var (s', out) := ReadyNext(cfg, s.(echoRoot := Some(root), fragment := Some((myShare, proof)), message := Some(message)), own, instance);
      if Panic in out then (s', out) else (s', out + [BroadcastReady(own, instance)])
  }

  /**
   * Settling handles the replica's own READY on the state with the root,
   * fragment and value set, then broadcasts that READY unless the
   * handling panicked.
   */
  lemma SettleUnfold(cfg: Config, s: RbcState, root: Hash, instance: nat)
    requires ConfigOk(cfg) && root in s.echos
    ensures var r := Recover(cfg.reconstruct, s.echos[root], cfg.numNodes, cfg.numFaults, cfg.myid);
      && (!r.Recovered? ==> Settle(cfg, s, root, instance) == (s, if r.Failed? then [] else [Panic]))
      && (r.Recovered? ==>
            var proof := MyProof(cfg, s, root, r.shards);
            var own := CtrbcMsg(r.myShare, proof, cfg.myid);
            var s3 := s.(echoRoot := Some(root), fragment := Some((r.myShare, proof)), message := Some(r.message));
            var (s4, out4) := ReadyNext(cfg, s3, own, instance);
            Settle(cfg, s, root, instance) == (s4, if Panic in out4 then out4 else out4 + [BroadcastReady(own, instance)]))
  {
  }

  /**
   * Settling keeps the invariant and sets the echo root to `root` exactly
   * when the value is recovered from the shards stored for it.
   */
  lemma SettleProperties(cfg: Config, s: RbcState, root: Hash, instance: nat)
    requires ConfigOk(cfg) && Wf(cfg, s) && root in s.echos && s.echoRoot.None? && !s.terminated
    ensures var (s', out) := Settle(cfg, s, root, instance);
      && Wf(cfg, s') && Inner(s'.echos, root) == s.echos[root]
      && (s'.echoRoot.Some? <==> Recover(cfg.reconstruct, s.echos[root], cfg.numNodes, cfg.numFaults, cfg.myid).Recovered?)
      && (s'.echoRoot.Some? ==> s'.echoRoot == Some(root))
  {
    SettleUnfold(cfg, s, root, instance);
    var r := Recover(cfg.reconstruct, s.echos[root], cfg.numNodes, cfg.numFaults, cfg.myid);
    if r.Recovered? {
      var proof := MyProof(cfg, s, root, r.shards);
      var own := CtrbcMsg(r.myShare, proof, cfg.myid);
      var s3 := s.(echoRoot := Some(root), fragment := Some((r.myShare, proof)), message := Some(r.message));
      ReadyNextProperties(cfg, s3, own, instance);
      assert root in s3.echos;
    }
  }

  /** A READY to a running instance calls `terminate` only as it terminates it, with the value it holds. */
  lemma ReadyNextTerminates(cfg: Config, s: RbcState, msg: CtrbcMsg, instance: nat)
    requires ConfigOk(cfg) && Wf(cfg, s) && !s.terminated
    ensures var (s', out) := ReadyNext(cfg, s, msg, instance);
      forall e :: e in out && e.Terminate? ==> s'.terminated && Some(e.message) == s'.message
  {
    ReadyNextProperties(cfg, s, msg, instance);
  }

  /** Settling calls `terminate` only when its own READY terminates the instance, with the value it holds. */
  lemma SettleTerminates(cfg: Config, s: RbcState, root: Hash, instance: nat)
    requires ConfigOk(cfg) && Wf(cfg, s) && root in s.echos && !s.terminated
    ensures var (s', out) := Settle(cfg, s, root, instance);
      forall e :: e in out && e.Terminate? ==> s'.terminated && Some(e.message) == s'.message
  {
    var r := Recover(cfg.reconstruct, s.echos[root], cfg.numNodes, cfg.numFaults, cfg.myid);
    if r.Recovered? {
      var proof := MyProof(cfg, s, root, r.shards);
      var own := CtrbcMsg(r.myShare, proof, cfg.myid);
      var s3 := s.(echoRoot := Some(root), fragment := Some((r.myShare, proof)), message := Some(r.message));
      var (s4, out4) := ReadyNext(cfg, s3, own, instance);
      var out := if Panic in out4 then out4 else out4 + [BroadcastReady(own, instance)];
      assert Settle(cfg, s, root, instance) == (s4, out);
      ReadyNextTerminates(cfg, s3, own, instance);
      assert forall e :: e in out && e.Terminate? ==> e in out4;
    }
  }

  /**
   * The ECHO thresholds keep the invariant; a settled root is never
   * changed; the root is settled only by recovering from exactly `n - f`
   * stored shards; `terminate` is called only for a running instance,
   * which is then terminated, and never by a crashed replica at `n`.
   */
  lemma EchoCountedProperties(cfg: Config, s: RbcState, root: Hash, instance: nat)
    requires ConfigOk(cfg) && Wf(cfg, s) && root in s.echos && !s.terminated
    ensures var (s', out) := EchoCounted(cfg, s, root, instance);
      && Wf(cfg, s') && Inner(s'.echos, root) == s.echos[root]
      && (s.echoRoot.Some? ==> s'.echoRoot == s.echoRoot)
      && (s'.echoRoot != s.echoRoot ==>
            && s'.echoRoot == Some(root) && |s.echos[root]| == cfg.numNodes - cfg.numFaults
            && Recover(cfg.reconstruct, s.echos[root], cfg.numNodes, cfg.numFaults, cfg.myid).Recovered?)
      && (forall e :: e in out && e.Terminate? ==> s'.terminated && Some(e.message) == s'.message)
  {
    if |s.echos[root]| == cfg.numNodes - cfg.numFaults && s.echoRoot.None? {
      SettleProperties(cfg, s, root, instance);
      SettleTerminates(cfg, s, root, instance);
    }
  }

  /**
   * An ECHO keeps the invariant and leaves a terminated instance alone.
   * The echo root is settled at most once: it changes only from unset to
   * the message's root, when exactly `n - f` shards are stored for that
   * root and the value is recovered from them. Each `terminate` call
   * comes with the flag going from clear to set, so it happens once.
   */
  lemma EchoNextProperties(cfg: Config, s: RbcState, msg: CtrbcMsg, instance: nat)
    requires ConfigOk(cfg) && Wf(cfg, s)
    ensures var (s', out) := EchoNext(cfg, s, msg, instance);
      && Wf(cfg, s')
      && (s.terminated ==> s' == s && out == [])
      && (s.echoRoot.Some? ==> s'.echoRoot == s.echoRoot)
      && (s'.echoRoot != s.echoRoot ==>
            && s'.echoRoot == Some(msg.mp.root)
            && |Inner(s'.echos, msg.mp.root)| == cfg.numNodes - cfg.numFaults
            && Recover(cfg.reconstruct, Inner(s'.echos, msg.mp.root), cfg.numNodes, cfg.numFaults, cfg.myid).Recovered?)
      && (forall e :: e in out && e.Terminate? ==> !s.terminated && s'.terminated && Some(e.message) == s'.message)
  {
    if !s.terminated {
      var root := msg.mp.root;
      var es := Inner(s.echos, root);
      if !(msg.origin !in es && !cfg.verify(msg)) {
        var t := s.(echos := s.echos[root := if msg.origin in es then es else Put(es, msg.origin, msg.shard)]);
        assert Wf(cfg, t) by {
          forall r | r in t.readys ensures r in t.echos && t.readys[r].Keys <= t.echos[r].Keys + {cfg.myid} {
            assert s.readys[r].Keys <= s.echos[r].Keys + {cfg.myid};
          }
        }
        assert EchoNext(cfg, s, msg, instance) == EchoCounted(cfg, t, root, instance);
        EchoCountedProperties(cfg, t, root, instance);
      }
    }
  }

  // ------------------------------------------------- the handlers' loops

  /** `handle_ready` on the instance's state. */
  method ReadyOn(cfg: Config, s: RbcState, msg: CtrbcMsg, instance: nat) returns (s': RbcState, out: seq<Effect>)
    requires ConfigOk(cfg)
    ensures (s', out) == ReadyNext(cfg, s, msg, instance)
  {
    if s.terminated {
      return s, [];
    }
    var root := msg.mp.root;
    s' := Touch(s, root);
    if !ReadyAccepted(cfg, s'.echos[root], msg) {
      return s', [];
    }
    if msg.origin in s'.echos[root] {
      s' := s'.(readys := s'.readys[root := Put(s'.readys[root], msg.origin, msg.shard)]);
    }
    assert s' == Recorded(s, msg);
    s', out := ReadyCountedOn(cfg, s', root, instance);
  }

  /** The READY thresholds, with the reconstruction loops. */
  method ReadyCountedOn(cfg: Config, s: RbcState, root: Hash, instance: nat) returns (s': RbcState, out: seq<Effect>)
    requires ConfigOk(cfg) && root in s.readys
    ensures (s', out) == ReadyCounted(cfg, s, root, instance)
  {
    s', out := s, [];
    var size := |s.readys[root]|;
    if size == cfg.numFaults + 1 {
      if s.echoRoot == Some(root) {
        return;
      }
      var r := RecoverOn(cfg.reconstruct, s.readys[root], cfg.numNodes, cfg.numFaults, cfg.myid);
      if r.Failed? {
        return;
      }
      if r.Crashed? {
        return s, [Panic];
      }
      var proof := MyProof(cfg, s, root, r.shards);
      s' := s.(fragment := Some((r.myShare, proof)), message := Some(r.message),
               readys := s.readys[root := Put(s.readys[root], cfg.myid, r.myShare)]);
      if !cfg.crash {
        out := [BroadcastReady(CtrbcMsg(r.myShare, proof, cfg.myid), instance)];
      }
    } else if size == cfg.numNodes - cfg.numFaults && !s.terminated {
      if s.message.None? {
        return s, [Panic];
      }
      s' := s.(terminated := true);
      out := [Terminate(instance, s.message.value)];
    }
  }

  /** `handle_echo` on the instance's state. */
  method EchoOn(cfg: Config, s: RbcState, msg: CtrbcMsg, instance: nat) returns (s': RbcState, out: seq<Effect>)
    requires ConfigOk(cfg)
    ensures (s', out) == EchoNext(cfg, s, msg, instance)
  {
    if s.terminated {
      return s, [];
    }
    var root := msg.mp.root;
    var es: map<nat, Bytes> := Inner(s.echos, root);
    if msg.origin !in es && !cfg.verify(msg) {
      return s.(echos := s.echos[root := es]), [];
    }
    if msg.origin !in es {
      es := Put(es, msg.origin, msg.shard);
    }
    s' := s.(echos := s.echos[root := es]);
    var size := |es|;
    out := [];
    if size == cfg.numNodes - cfg.numFaults && s'.echoRoot.None? {
      s', out := SettleOn(cfg, s', root, instance);
    } else if size == cfg.numNodes && s'.echoRoot.Some? && !s'.terminated {
      var held := s'.message;
      s' := s'.(terminated := true);
      if cfg.crash {
        return;
      }
      if held.None? {
        return s', [Panic];
      }
      out := [Terminate(instance, held.value)];
    }
  }

  /** The end of the echo phase, with the reconstruction loops and the nested `handle_ready`. */
  method SettleOn(cfg: Config, s: RbcState, root: Hash, instance: nat) returns (s': RbcState, out: seq<Effect>)
    requires ConfigOk(cfg) && root in s.echos
    ensures (s', out) == Settle(cfg, s, root, instance)
  {
    var r := RecoverOn(cfg.reconstruct, s.echos[root], cfg.numNodes, cfg.numFaults, cfg.myid);
    if r.Failed? {
      return s, [];
    }
    if r.Crashed? {
      return s, [Panic];
    }
    var proof := MyProof(cfg, s, root, r.shards);
    var own := CtrbcMsg(r.myShare, proof, cfg.myid);
    s', out := ReadyOn(cfg, s.(echoRoot := Some(root), fragment := Some((r.myShare, proof)), message := Some(r.message)), own, instance);
    if Panic !in out {
      out := out + [BroadcastReady(own, instance)];
    }
  }

  // ------------------------------------------------------------ context

  /** A replica's ctrbc context. */
  class Context {
    const cfg: Config
    var rbcContext: map<nat, RbcState>
    var outbox: seq<Effect>
    /** Set when the tokio task has panicked; no handler runs afterwards. */
    var panicked: bool

    /** The configuration is sound and every instance keeps the state invariant. */
    ghost predicate Valid()
      reads this
    {
      ConfigOk(cfg) && forall i :: i in rbcContext ==> Wf(cfg, rbcContext[i])
    }

    /** `self.rbc_context.entry(instance_id).or_default()`, read only. */
    function StateOf(instance: nat): RbcState
      reads this
    {
      if instance in rbcContext then rbcContext[instance] else New()
    }

    constructor (cfg: Config)
      requires ConfigOk(cfg)
      ensures Valid() && this.cfg == cfg && rbcContext == map[] && outbox == [] && !panicked
    {
      this.cfg := cfg;
      rbcContext, outbox, panicked := map[], [], false;
    }

    /** `handle_echo`: the instance's state and the effects follow `EchoNext`. */
    method HandleEcho(msg: CtrbcMsg, instance: nat)
      requires Valid() && !panicked
      modifies this
      ensures Valid() && instance in rbcContext && rbcContext == old(rbcContext)[instance := rbcContext[instance]]
      ensures |outbox| >= |old(outbox)| && outbox[..|old(outbox)|] == old(outbox)
      ensures (rbcContext[instance], outbox[|old(outbox)|..]) == EchoNext(cfg, old(StateOf(instance)), msg, instance)
      ensures panicked <==> Panic in outbox[|old(outbox)|..]
    {
      EchoNextProperties(cfg, StateOf(instance), msg, instance);
      var s, out := EchoOn(cfg, StateOf(instance), msg, instance);
      Commit(instance, s, out);
    }

    /** `handle_ready`: the instance's state and the effects follow `ReadyNext`. */
    method HandleReady(msg: CtrbcMsg, instance: nat)
      requires Valid() && !panicked
      modifies this
      ensures Valid() && instance in rbcContext && rbcContext == old(rbcContext)[instance := rbcContext[instance]]
      ensures |outbox| >= |old(outbox)| && outbox[..|old(outbox)|] == old(outbox)
      ensures (rbcContext[instance], outbox[|old(outbox)|..]) == ReadyNext(cfg, old(StateOf(instance)), msg, instance)
      ensures panicked <==> Panic in outbox[|old(outbox)|..]
    {
      ReadyNextProperties(cfg, StateOf(instance), msg, instance);
      var s, out := ReadyOn(cfg, StateOf(instance), msg, instance);
      Commit(instance, s, out);
    }

    /** Writes back an instance's state and a handler's effects; a panic stops the tokio task. */
    method Commit(instance: nat, s: RbcState, out: seq<Effect>)
      requires Valid() && Wf(cfg, s)
      modifies this
      ensures Valid() && rbcContext == old(rbcContext)[instance := s] && outbox == old(outbox) + out
      ensures outbox[|old(outbox)|..] == out && panicked == (Panic in out)
    {
      rbcContext := rbcContext[instance := s];
      outbox := outbox + out;
      panicked := Panic in out;
      assert outbox[|old(outbox)|..] == out;
    }
  }
}
