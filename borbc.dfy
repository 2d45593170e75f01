/**
 * The borbc ECHO and VOTE handlers (`consensus/borbc/src/protocol`). A
 * replica stores the first verified shard each origin echoes for a
 * Merkle root; it sends one VOTE at `ceil(n/2)` echoes and one READY at
 * `ceil((n+f-1)/2)` echoes or votes; it recovers the value at the
 * optimistic-commit threshold, at the latch threshold once the READY
 * quorum is reached, or at exactly `n - f` echoes, and accepts it only
 * when the recovered shards hash to the root; it terminates at the first
 * two of those, or at `n` echoes once a root is known. `broadcast`,
 * `terminate` and the replica's own `handle_ready` are recorded as
 * effects.
 *
 * The step functions `EchoNext` and `VoteNext` are the specification;
 * the methods `EchoOn` and `VoteOn` are the handlers' code, each proved
 * to return what its step function gives, and the lemmas state the
 * protocol's properties about the step functions.
 */
module Borbc {
  import opened Wrappers
  import opened RbcCommon

  /** borbc's `CTRBCMsg`: a shard, the Merkle proof that it belongs under a root, and the sender. */
  datatype CtrbcMsg = CtrbcMsg(shard: Bytes, mp: Proof, origin: nat)

  /** `RBCState`. */
  datatype RbcState = RbcState(
    echos: map<Hash, map<nat, Bytes>>,
    echoRoot: Option<Hash>,
    readys: map<Hash, map<nat, Bytes>>,
    votes: map<Hash, map<nat, Bytes>>,
    sentVote: bool,
    sentReady: bool,
    readyQuorumReached: bool,
    fragment: Option<(Bytes, Proof)>,
    message: Option<Bytes>,
    terminated: bool)

  /** `RBCState::new()`, which `Default` also returns. */
  function New(): RbcState
  {
    RbcState(map[], None, map[], map[], false, false, false, None, None, false)
  }

  /** What a handler does beyond its own state. */
  datatype Effect =
    | BroadcastVote(msg: CtrbcMsg, instance: nat)   // `broadcast(ProtMsg::Vote(..))`
    | BroadcastReady(msg: CtrbcMsg, instance: nat)  // `broadcast(ProtMsg::Ready(..))`
    | OwnReady(msg: CtrbcMsg, instance: nat)        // `self.handle_ready(..)` on the replica's own READY
    | Terminate(message: Bytes)                     // `terminate`
    | Panic                                         // an `unwrap` or index that fails

  /**
   * The replica's constants and the libraries it calls: `verify` is
   * `verify_mr_proof`, `reconstruct` is `reconstruct_data` (the slot
   * vector it leaves, `None` for an error), `merkleRoot(shards)` is
   * `construct_merkle_tree(shards).root()` and `genProof(shards, i)` its
   * `gen_proof(i)`.
   */
  datatype Config = Config(
    myid: nat, numNodes: nat, numFaults: nat, crash: bool,
    verify: CtrbcMsg -> bool,
    reconstruct: seq<Option<Bytes>> -> Option<seq<Option<Bytes>>>,
    merkleRoot: seq<Bytes> -> Hash,
    genProof: (seq<Bytes>, nat) -> Proof)

  /**
   * A node is one of the `n` replicas and there are no more faults than
   * nodes. Then the threshold expressions stay within `usize`, except the
   * optimistic-commit one at `n = 1, f = 0` (see `OptThreshold`).
   */
  predicate ConfigOk(cfg: Config)
  {
    cfg.myid < cfg.numNodes && cfg.numFaults <= cfg.numNodes
  }

  // --------------------------------------------------------- thresholds

  /** `(n + 1) / 2`: the VOTE threshold, `ceil(n/2)`. */
  function VoteThreshold(n: nat): (t: nat)
    ensures 2 * t >= n && 2 * (t - 1) < n
  {
    (n + 1) / 2
  }

  /** `(n + f - 1 + 1) / 2`: the READY threshold on echoes and on votes, `ceil((n+f-1)/2)`. */
  function ReadyThreshold(n: nat, f: nat): (t: nat)
    requires 1 <= n
    ensures 2 * t >= n + f - 1 && 2 * (t - 1) < n + f - 1
  {
    (n + f - 1 + 1) / 2
  }

  /**
   * `(n + 2f - 2 + 1) / 2`: the optimistic-commit threshold, `ceil((n+2f-2)/2)`.
   * At `n = 1, f = 0` the `usize` subtraction underflows: wrapping, as a
   * release build does, gives 0; a debug build panics.
   */
  function OptThreshold(n: nat, f: nat): (t: nat)
    requires 1 <= n
    ensures 2 * t >= n + 2 * f - 2 && 2 * (t - 1) < n + 2 * f - 2
  {
    if n + 2 * f == 1 then 0 else (n + 2 * f - 2 + 1) / 2
  }

  /** `(n - f + 1 + 1) / 2`: the latch threshold, `ceil((n-f+1)/2)`. */
  function LatchThreshold(n: nat, f: nat): (t: nat)
    requires f <= n
    ensures 2 * t >= n - f + 1 && 2 * (t - 1) < n - f + 1
  {
    (n - f + 1 + 1) / 2
  }

  // ------------------------------------------------------------ invariant

  /**
   * The state invariant: votes are recorded only for roots with an echo
   * entry and only from origins that echoed for that root; a known echo
   * root comes with a fragment and the value; a terminated instance has
   * the value.
   */
  predicate Wf(s: RbcState)
  {
    && (forall r :: r in s.votes ==> r in s.echos && s.votes[r].Keys <= s.echos[r].Keys)
    && (s.echoRoot.Some? ==> s.fragment.Some? && s.message.Some?)
    && (s.terminated ==> s.message.Some?)
  }

  /** A fresh state satisfies the invariant, with every flag clear. */
  lemma NewWf()
    ensures Wf(New()) && !New().sentVote && !New().sentReady && !New().terminated && New().echoRoot.None?
  {
  }

  /** The share and proof a VOTE or threshold READY carries: the stored fragment, else the message's own. */
  function OwnMsg(cfg: Config, s: RbcState, msg: CtrbcMsg): CtrbcMsg
  {
    if s.fragment.Some? then CtrbcMsg(s.fragment.value.0, s.fragment.value.1, cfg.myid)
    else CtrbcMsg(msg.shard, msg.mp, cfg.myid)
  }

  /** No VOTE among the effects. */
  predicate NoVote(out: seq<Effect>)
  {
    forall i :: 0 <= i < |out| ==> !out[i].BroadcastVote?
  }

  /** Some VOTE among the effects. */
  predicate HasVote(out: seq<Effect>)
  {
    exists i :: 0 <= i < |out| && out[i].BroadcastVote?
  }

  /** At most one VOTE among the effects, and for `instance`. */
  predicate OneVote(out: seq<Effect>, instance: nat)
  {
    && (forall i :: 0 <= i < |out| && out[i].BroadcastVote? ==> out[i].instance == instance)
    && (forall i, j :: 0 <= i < j < |out| && out[i].BroadcastVote? ==> !out[j].BroadcastVote?)
  }

  /** `terminate`, if called, is the last effect. */
  predicate TerminateLast(out: seq<Effect>)
  {
    forall i :: 0 <= i < |out| && out[i].Terminate? ==> i == |out| - 1
  }

  /**
   * `s'` differs from `s` in the echo root, the fragment or the value
   * only by the value of the recovery `r`, whose shards hash to `root`.
   */
  predicate Settled(cfg: Config, s: RbcState, s': RbcState, root: Hash, r: Recovery)
  {
    (s'.echoRoot != s.echoRoot || s'.fragment != s.fragment || s'.message != s.message) ==>
      && r.Recovered? && cfg.merkleRoot(r.shards) == root
      && s'.echoRoot == Some(root) && s'.message == Some(r.message)
      && s'.fragment.Some? && s'.fragment.value.0 == r.myShare
  }

  // --------------------------------------------------------------- ECHO

  /** The decisions `handle_echo` takes on the echoes stored for the root. */
  datatype Triggers = Triggers(vote: bool, ready: bool, optCommit: bool, latch: bool, nf: bool, atN: bool)

  function TriggersOf(cfg: Config, s: RbcState, root: Hash): Triggers
    requires ConfigOk(cfg) && root in s.echos
  {
    var size := |s.echos[root]|;
    var n, f := cfg.numNodes, cfg.numFaults;
    Triggers(
      !s.sentVote && size >= VoteThreshold(n),
      !s.sentReady && size >= ReadyThreshold(n, f),
      !s.terminated && size >= OptThreshold(n, f),
      s.readyQuorumReached && !s.terminated && size >= LatchThreshold(n, f),
      size == n - f,
      size == n && s.echoRoot.Some? && !s.terminated)
  }

  /** The flags the decisions set inside the borrow of the instance's state. */
  function Marked(s: RbcState, t: Triggers): RbcState
  {
    s.(sentVote := s.sentVote || t.vote, sentReady := s.sentReady || t.ready, terminated := s.terminated || t.atN)
  }

  /** The VOTE and the threshold READY, sent only when not crashed. */
  function Announce(cfg: Config, t: Triggers, own: CtrbcMsg, instance: nat): seq<Effect>
  {
    (if !cfg.crash && t.vote then [BroadcastVote(own, instance)] else [])
    + (if !cfg.crash && t.ready then [BroadcastReady(own, instance)] else [])
  }

  /**
   * `handle_echo`. A terminated instance ignores it, and so does one for
   * which the proof does not verify; a repeated origin changes nothing.
   * Otherwise the shard is stored and the thresholds apply.
   */
  function EchoNext(cfg: Config, s: RbcState, msg: CtrbcMsg, instance: nat): (RbcState, seq<Effect>)
    requires ConfigOk(cfg)
  {
    var root := msg.mp.root;
    var es := Inner(s.echos, root);
    if s.terminated || !cfg.verify(msg) then (s, [])
    else if msg.origin in es then (s, [])
    else
      var u := s.(echos := s.echos[root := Put(es, msg.origin, msg.shard)]);
      EchoStored(cfg, u, msg, Recover(cfg.reconstruct, u.echos[root], cfg.numNodes, cfg.numFaults, cfg.myid), instance)
  }

  /**
   * The thresholds once the shard is stored: the flags are set and the
   * VOTE and READY sent; the value is recovered when a reconstruction
   * threshold is met; and at `n` echoes with a known root the instance
   * terminates with the value it already held, unless the recovery
   * stopped the handler first. The `unwrap`s of the `n` branch panic
   * when there is no fragment or value.
   */
  function EchoStored(cfg: Config, s: RbcState, msg: CtrbcMsg, r: Recovery, instance: nat): (RbcState, seq<Effect>)
    requires ConfigOk(cfg) && msg.mp.root in s.echos
  {
    var t := TriggersOf(cfg, s, msg.mp.root);
    if t.atN && (s.fragment.None? || s.message.None?) then (Marked(s, t.(atN := false)), [Panic])
    else
      Finish(cfg, s, t, Announce(cfg, t, OwnMsg(cfg, s, msg), instance),
             Rebuild(cfg, Marked(s, t), msg.mp.root, t, r, instance), instance)
  }

  /**
   * After the recovery `rb`: the state it leaves, the VOTE and READY
   * already sent, what the recovery did, and then, unless the recovery
   * returned, the `n` branch.
   */
  function Finish(cfg: Config, s: RbcState, t: Triggers, out1: seq<Effect>, rb: (RbcState, seq<Effect>, bool),
                  instance: nat): (RbcState, seq<Effect>)
    requires t.atN ==> s.fragment.Some? && s.message.Some?
  {
    (rb.0, out1 + (rb.1 + if rb.2 || !t.atN then [] else AtN(cfg, s, instance)))
  }

  /** The `n` branch: the READY with the stored fragment unless crashed, then `terminate` with the stored value. */
  function AtN(cfg: Config, s: RbcState, instance: nat): seq<Effect>
    requires s.fragment.Some? && s.message.Some?
  {
    (if cfg.crash then [] else [BroadcastReady(CtrbcMsg(s.fragment.value.0, s.fragment.value.1, cfg.myid), instance)])
    + [Terminate(s.message.value)]
  }

  /** Whether the optimistic-commit threshold, the latch with the READY quorum, or `n - f` echoes call for a recovery. */
  predicate Reconstructs(s: RbcState, t: Triggers)
  {
    t.optCommit || (s.readyQuorumReached && t.latch) || t.nf
  }

  /**
   * The recovery, when the optimistic-commit threshold, the latch (with
   * the READY quorum) or `n - f` echoes call for it; `r` is what the
   * reconstruction of the shards stored for the root ends with. A failed
   * reconstruction stops the handler and a missing shard panics; the
   * value is accepted only when the shards hash to the root. The third
   * result says the handler returns.
   */
  function Rebuild(cfg: Config, s: RbcState, root: Hash, t: Triggers, r: Recovery, instance: nat): (RbcState, seq<Effect>, bool)
  {
    if !Reconstructs(s, t) then (s, [], false)
    else
      match r
      case Failed => (s, [], true)
      case Crashed => (s, [Panic], true)
      case Recovered(shards, message, myShare) =>
        if cfg.merkleRoot(shards) != root then (s, [], false)
        else Accept(cfg, s, root, t.optCommit || t.latch, shards, message, myShare, instance)
  }

  /**
   * An accepted value: the root, the replica's share with a new proof,
   * and the value are stored; then either the instance terminates
   * (`commit`: READY unless crashed, `terminate`, and the handler
   * returns) or, at `n - f`, the replica handles and broadcasts its own
   * READY, whether crashed or not.
   */
  function Accept(cfg: Config, s: RbcState, root: Hash, commit: bool, shards: seq<Bytes>, message: Bytes,
                  myShare: Bytes, instance: nat): (RbcState, seq<Effect>, bool)
  {
    var own := CtrbcMsg(myShare, cfg.genProof(shards, cfg.myid), cfg.myid);
    var s' := s.(echoRoot := Some(root), fragment := Some((myShare, own.mp)), message := Some(message));
    if commit then
      (s'.(terminated := true), (if cfg.crash then [] else [BroadcastReady(own, instance)]) + [Terminate(message)], true)
    else (s', [OwnReady(own, instance), BroadcastReady(own, instance)], false)
  }

  /**
   * Accepting a value changes only the root, the fragment, the value and,
   * when committing, the termination flag; it sends no VOTE and calls
   * `terminate`, last and with the value, exactly when committing.
   */
  lemma AcceptProperties(cfg: Config, s: RbcState, root: Hash, commit: bool, shards: seq<Bytes>, message: Bytes,
                         myShare: Bytes, instance: nat)
    requires Wf(s)
    ensures var (s', out, stop) := Accept(cfg, s, root, commit, shards, message, myShare, instance);
      && Wf(s') && stop == commit && s'.terminated == (s.terminated || commit)
      && s' == s.(echoRoot := Some(root), fragment := Some((myShare, s'.fragment.value.1)),
                  message := Some(message), terminated := s'.terminated)
      && NoVote(out) && TerminateLast(out) && Panic !in out
      && (forall e :: e in out && e.Terminate? ==> commit && e.message == message)
  {
  }

  /**
   * The recovery keeps the invariant; it changes only the root, the
   * fragment and the value, which it settles from the shards, and sets
   * the termination flag only when it commits and returns.
   */
  lemma RebuildState(cfg: Config, s: RbcState, root: Hash, t: Triggers, r: Recovery, instance: nat)
    requires Wf(s)
    ensures var (s', out, stop) := Rebuild(cfg, s, root, t, r, instance);
      && Wf(s')
      && s' == s.(echoRoot := s'.echoRoot, fragment := s'.fragment, message := s'.message, terminated := s'.terminated)
      && (s'.terminated != s.terminated ==> stop && (t.optCommit || t.latch))
      && (!stop ==> s'.terminated == s.terminated)
      && Settled(cfg, s, s', root, r)
  {
    match r
    case Recovered(shards, message, myShare) =>
      AcceptProperties(cfg, s, root, t.optCommit || t.latch, shards, message, myShare, instance);
    case _ =>
  }

  /** The recovery sets the termination flag only when it returns. */
  lemma RebuildTerminated(cfg: Config, s: RbcState, root: Hash, t: Triggers, r: Recovery, instance: nat)
    ensures var (s', out, stop) := Rebuild(cfg, s, root, t, r, instance);
      !stop ==> s'.terminated == s.terminated
  {
  }

  /** The recovery leaves the sending flags as they are. */
  lemma RebuildFlags(cfg: Config, s: RbcState, root: Hash, t: Triggers, r: Recovery, instance: nat)
    ensures var s' := Rebuild(cfg, s, root, t, r, instance).0;
      s'.sentVote == s.sentVote && s'.sentReady == s.sentReady
  {
  }

  /**
   * The recovery sends no VOTE; it calls `terminate` only last, when it
   * returns with the instance terminated, and with the value it now
   * holds; it panics exactly when it runs and the recovered slots are not
   * all filled.
   */
  lemma RebuildOutput(cfg: Config, s: RbcState, root: Hash, t: Triggers, r: Recovery, instance: nat)
    requires Wf(s)
    ensures var (s', out, stop) := Rebuild(cfg, s, root, t, r, instance);
      && NoVote(out) && TerminateLast(out)
      && (forall e :: e in out && e.Terminate? ==> stop && s'.terminated && Some(e.message) == s'.message)
      && (Panic in out <==> Reconstructs(s, t) && r.Crashed?)
  {
    match r
    case Recovered(shards, message, myShare) =>
      AcceptProperties(cfg, s, root, t.optCommit || t.latch, shards, message, myShare, instance);
    case _ =>
  }

  /** No `terminate` among the effects. */
  predicate NoTerminate(out: seq<Effect>)
  {
    forall i :: 0 <= i < |out| ==> !out[i].Terminate?
  }

  /** Appending effects without a VOTE keeps at most one VOTE, and adds none. */
  lemma OneVoteAppend(a: seq<Effect>, b: seq<Effect>, instance: nat)
    requires OneVote(a, instance) && NoVote(b)
    ensures OneVote(a + b, instance) && (HasVote(a + b) ==> HasVote(a))
    ensures forall e :: e in a + b && e.BroadcastVote? ==> e in a
  {
    forall e | e in a + b && e.BroadcastVote? ensures e in a {
      assert e in a || e in b;
    }
    if HasVote(a + b) {
      var k :| 0 <= k < |a + b| && (a + b)[k].BroadcastVote?;
      if k < |a| {
        assert a[k].BroadcastVote?;
      }
    }
  }

  lemma NoVoteAppend(a: seq<Effect>, b: seq<Effect>)
    requires NoVote(a) && NoVote(b)
    ensures NoVote(a + b)
  {
    forall i | 0 <= i < |a + b| ensures !(a + b)[i].BroadcastVote? {
      if i >= |a| {
        assert (a + b)[i] == b[i - |a|];
      }
    }
  }

  /** Effects without `terminate` before effects that end with it keep it last, and add none. */
  lemma TerminateLastAppend(a: seq<Effect>, b: seq<Effect>)
    requires NoTerminate(a) && TerminateLast(b)
    ensures TerminateLast(a + b) && forall e :: e in a + b && e.Terminate? ==> e in b
  {
    forall i | 0 <= i < |a + b| && (a + b)[i].Terminate? ensures i == |a + b| - 1 {
      if i >= |a| {
        assert (a + b)[i] == b[i - |a|];
      }
    }
    forall e | e in a + b && e.Terminate? ensures e in b {
      var k :| 0 <= k < |a + b| && (a + b)[k] == e;
      if k >= |a| {
        assert b[k - |a|] == e;
      }
    }
  }

  /**
   * The VOTE and READY: at most one of each, each sent only on its own
   * trigger and when not crashed, carrying `own`; no `terminate`, no panic.
   */
  lemma AnnounceProperties(cfg: Config, t: Triggers, own: CtrbcMsg, instance: nat)
    ensures var out := Announce(cfg, t, own, instance);
      && OneVote(out, instance) && NoTerminate(out) && Panic !in out
      && (forall e :: e in out && e.BroadcastVote? ==> !cfg.crash && t.vote && e.msg == own)
      && (HasVote(out) ==> t.vote)
      && (forall e :: e in out && e.BroadcastReady? ==> !cfg.crash && t.ready && e.msg == own && e.instance == instance)
      && (forall i, j :: 0 <= i < j < |out| && out[i].BroadcastReady? ==> !out[j].BroadcastReady?)
  {
  }

  /** The `n` branch sends no VOTE, cannot panic, and ends with `terminate` on the stored value. */
  lemma AtNProperties(cfg: Config, s: RbcState, instance: nat)
    requires s.fragment.Some? && s.message.Some?
    ensures var out := AtN(cfg, s, instance);
      && NoVote(out) && TerminateLast(out) && Panic !in out
      && (forall e :: e in out && e.Terminate? ==> e.message == s.message.value)
  {
  }

  /**
   * After the recovery, the `n` branch adds no VOTE: the VOTEs are those
   * sent before.
   */
  lemma FinishVotes(cfg: Config, s: RbcState, t: Triggers, out1: seq<Effect>, rb: (RbcState, seq<Effect>, bool),
                    instance: nat)
    requires (t.atN ==> s.fragment.Some? && s.message.Some?) && OneVote(out1, instance) && NoVote(rb.1)
    ensures var out := Finish(cfg, s, t, out1, rb, instance).1;
      && OneVote(out, instance) && (HasVote(out) ==> HasVote(out1))
      && (forall e :: e in out && e.BroadcastVote? ==> e in out1)
  {
    var rest: seq<Effect> := if rb.2 || !t.atN then [] else AtN(cfg, s, instance);
    if !(rb.2 || !t.atN) {
      AtNProperties(cfg, s, instance);
    }
    NoVoteAppend(rb.1, rest);
    OneVoteAppend(out1, rb.1 + rest, instance);
  }

  /**
   * After the recovery, `terminate` comes last: either the recovery's own
   * (when it returned) or the `n` branch's, with the stored value and the
   * instance terminated.
   */
  lemma FinishTerminates(cfg: Config, s: RbcState, t: Triggers, out1: seq<Effect>, rb: (RbcState, seq<Effect>, bool),
                         instance: nat)
    requires (t.atN ==> s.fragment.Some? && s.message.Some?) && NoTerminate(out1) && TerminateLast(rb.1)
    requires forall e :: e in rb.1 && e.Terminate? ==> rb.2
    ensures var out := Finish(cfg, s, t, out1, rb, instance).1;
      && TerminateLast(out)
      && (forall e :: e in out && e.Terminate? ==> e in rb.1 || (!rb.2 && t.atN && e.message == s.message.value))
  {
    var rest: seq<Effect> := if rb.2 || !t.atN then [] else AtN(cfg, s, instance);
    if rb.2 || !t.atN {
      assert rb.1 + rest == rb.1;
    } else {
      AtNProperties(cfg, s, instance);
      assert NoTerminate(rb.1);
      TerminateLastAppend(rb.1, rest);
    }
    TerminateLastAppend(out1, rb.1 + rest);
  }

  /**
   * With a shard stored, the handler changes only the two sending flags,
   * the termination flag, and the root, fragment and value.
   */
  lemma EchoStoredFrame(cfg: Config, s: RbcState, msg: CtrbcMsg, r: Recovery, instance: nat)
    requires ConfigOk(cfg) && Wf(s) && msg.mp.root in s.echos
    ensures var s' := EchoStored(cfg, s, msg, r, instance).0;
      var t := TriggersOf(cfg, s, msg.mp.root);
      s' == s.(sentVote := s'.sentVote, sentReady := s'.sentReady, echoRoot := s'.echoRoot,
               fragment := s'.fragment, message := s'.message, terminated := s'.terminated)
  {
    var t := TriggersOf(cfg, s, msg.mp.root);
    RebuildState(cfg, Marked(s, t), msg.mp.root, t, r, instance);
  }

  /** With a shard stored, the handler raises `sentVote` and `sentReady` exactly on their thresholds. */
  lemma EchoStoredFlags(cfg: Config, s: RbcState, msg: CtrbcMsg, r: Recovery, instance: nat)
    requires ConfigOk(cfg) && Wf(s) && msg.mp.root in s.echos
    ensures var s' := EchoStored(cfg, s, msg, r, instance).0;
      var t := TriggersOf(cfg, s, msg.mp.root);
      s'.sentVote == (s.sentVote || t.vote) && s'.sentReady == (s.sentReady || t.ready)
  {
    var t := TriggersOf(cfg, s, msg.mp.root);
    RebuildFlags(cfg, Marked(s, t), msg.mp.root, t, r, instance);
  }

  /**
   * With a shard stored, the handler keeps the invariant and settles the
   * root, fragment and value only from the recovery `r`.
   */
  lemma EchoStoredSettles(cfg: Config, s: RbcState, msg: CtrbcMsg, r: Recovery, instance: nat)
    requires ConfigOk(cfg) && Wf(s) && msg.mp.root in s.echos
    ensures var s' := EchoStored(cfg, s, msg, r, instance).0;
      Wf(s') && Settled(cfg, s, s', msg.mp.root, r)
  {
    var t := TriggersOf(cfg, s, msg.mp.root);
    RebuildState(cfg, Marked(s, t), msg.mp.root, t, r, instance);
  }

  /**
   * With a shard stored, the handler sends at most one VOTE, for the
   * instance, and only when it raises `sentVote`.
   */
  lemma EchoStoredVotes(cfg: Config, s: RbcState, msg: CtrbcMsg, r: Recovery, instance: nat)
    requires ConfigOk(cfg) && Wf(s) && msg.mp.root in s.echos
    ensures var (s', out) := EchoStored(cfg, s, msg, r, instance);
      OneVote(out, instance) && (HasVote(out) ==> !s.sentVote && s'.sentVote)
  {
    var t := TriggersOf(cfg, s, msg.mp.root);
    if !(t.atN && (s.fragment.None? || s.message.None?)) {
      var own := OwnMsg(cfg, s, msg);
      AnnounceProperties(cfg, t, own, instance);
      RebuildOutput(cfg, Marked(s, t), msg.mp.root, t, r, instance);
      FinishVotes(cfg, s, t, Announce(cfg, t, own, instance), Rebuild(cfg, Marked(s, t), msg.mp.root, t, r, instance), instance);
      EchoStoredFlags(cfg, s, msg, r, instance);
    }
  }

  /**
   * With a shard stored, a VOTE goes out only when not crashed, from the
   * replica's own id, holding `ceil(n/2)` echoes for the root.
   */
  lemma EchoStoredVoteSender(cfg: Config, s: RbcState, msg: CtrbcMsg, r: Recovery, instance: nat)
    requires ConfigOk(cfg) && Wf(s) && msg.mp.root in s.echos
    ensures forall e :: e in EchoStored(cfg, s, msg, r, instance).1 && e.BroadcastVote? ==>
      !cfg.crash && e.msg.origin == cfg.myid && |s.echos[msg.mp.root]| >= VoteThreshold(cfg.numNodes)
  {
    var t := TriggersOf(cfg, s, msg.mp.root);
    if !(t.atN && (s.fragment.None? || s.message.None?)) {
      var own := OwnMsg(cfg, s, msg);
      AnnounceProperties(cfg, t, own, instance);
      RebuildOutput(cfg, Marked(s, t), msg.mp.root, t, r, instance);
      FinishVotes(cfg, s, t, Announce(cfg, t, own, instance), Rebuild(cfg, Marked(s, t), msg.mp.root, t, r, instance), instance);
    }
  }

  /**
   * With a shard stored, `terminate` leaves the instance terminated and
   * carries the value it now holds or held before.
   */
  lemma EchoStoredTerminates(cfg: Config, s: RbcState, msg: CtrbcMsg, r: Recovery, instance: nat)
    requires ConfigOk(cfg) && Wf(s) && msg.mp.root in s.echos
    ensures var (s', out) := EchoStored(cfg, s, msg, r, instance);
      forall e :: e in out && e.Terminate? ==> s'.terminated && (Some(e.message) == s'.message || Some(e.message) == s.message)
  {
    var t := TriggersOf(cfg, s, msg.mp.root);
    if !(t.atN && (s.fragment.None? || s.message.None?)) {
      var own := OwnMsg(cfg, s, msg);
      var rb := Rebuild(cfg, Marked(s, t), msg.mp.root, t, r, instance);
      AnnounceProperties(cfg, t, own, instance);
      RebuildOutput(cfg, Marked(s, t), msg.mp.root, t, r, instance);
      RebuildTerminated(cfg, Marked(s, t), msg.mp.root, t, r, instance);
      FinishTerminates(cfg, s, t, Announce(cfg, t, own, instance), rb, instance);
    }
  }

  /** With a shard stored, `terminate` is called at most once, and last. */
  lemma EchoStoredTerminateLast(cfg: Config, s: RbcState, msg: CtrbcMsg, r: Recovery, instance: nat)
    requires ConfigOk(cfg) && Wf(s) && msg.mp.root in s.echos
    ensures TerminateLast(EchoStored(cfg, s, msg, r, instance).1)
  {
    var t := TriggersOf(cfg, s, msg.mp.root);
    if !(t.atN && (s.fragment.None? || s.message.None?)) {
      var own := OwnMsg(cfg, s, msg);
      AnnounceProperties(cfg, t, own, instance);
      RebuildOutput(cfg, Marked(s, t), msg.mp.root, t, r, instance);
      FinishTerminates(cfg, s, t, Announce(cfg, t, own, instance), Rebuild(cfg, Marked(s, t), msg.mp.root, t, r, instance), instance);
    }
  }

  /** With a shard stored and under the invariant, the handler panics only when the recovery `r` does. */
  lemma EchoStoredPanics(cfg: Config, s: RbcState, msg: CtrbcMsg, r: Recovery, instance: nat)
    requires ConfigOk(cfg) && Wf(s) && msg.mp.root in s.echos
    ensures Panic in EchoStored(cfg, s, msg, r, instance).1 ==> r.Crashed?
  {
    var t := TriggersOf(cfg, s, msg.mp.root);
    if !(t.atN && (s.fragment.None? || s.message.None?)) {
      var own := OwnMsg(cfg, s, msg);
      var rb := Rebuild(cfg, Marked(s, t), msg.mp.root, t, r, instance);
      AnnounceProperties(cfg, t, own, instance);
      RebuildOutput(cfg, Marked(s, t), msg.mp.root, t, r, instance);
      if !(rb.2 || !t.atN) {
        AtNProperties(cfg, s, instance);
      }
    }
  }

  /**
   * With a shard stored and `k` echoes for the root, a running instance
   * terminates only at the optimistic-commit threshold, at the latch
   * threshold with the READY quorum, or at `n` echoes with a known root;
   * the echo root changes only at the first two or at exactly `n - f`.
   */
  lemma EchoStoredThresholds(cfg: Config, s: RbcState, msg: CtrbcMsg, r: Recovery, instance: nat)
    requires ConfigOk(cfg) && Wf(s) && msg.mp.root in s.echos
    ensures var s' := EchoStored(cfg, s, msg, r, instance).0;
      var k, n, f := |s.echos[msg.mp.root]|, cfg.numNodes, cfg.numFaults;
      && (!s.terminated && s'.terminated ==>
            k >= OptThreshold(n, f) || (s.readyQuorumReached && k >= LatchThreshold(n, f)) || (k == n && s.echoRoot.Some?))
      && (s'.echoRoot != s.echoRoot ==>
            k >= OptThreshold(n, f) || (s.readyQuorumReached && k >= LatchThreshold(n, f)) || k == n - f)
  {
    var t := TriggersOf(cfg, s, msg.mp.root);
    RebuildState(cfg, Marked(s, t), msg.mp.root, t, r, instance);
  }

  /**
   * With a shard stored, a running instance whose echoes reach a
   * reconstruction threshold, and whose shards recover into a value that
   * hashes to the root, takes that root, share and value. At the
   * optimistic-commit or latch threshold it terminates: its READY goes
   * out unless crashed and `terminate` with the value comes last. At
   * `n - f` alone it stays running and handles and broadcasts its own READY.
   */
  lemma EchoStoredAccepts(cfg: Config, s: RbcState, msg: CtrbcMsg, r: Recovery, instance: nat)
    requires ConfigOk(cfg) && Wf(s) && msg.mp.root in s.echos && !s.terminated
    requires r.Recovered? && cfg.merkleRoot(r.shards) == msg.mp.root
    requires var k, n, f := |s.echos[msg.mp.root]|, cfg.numNodes, cfg.numFaults;
      k >= OptThreshold(n, f) || (s.readyQuorumReached && k >= LatchThreshold(n, f)) || k == n - f
    ensures var (s', out) := EchoStored(cfg, s, msg, r, instance);
      var k, n, f := |s.echos[msg.mp.root]|, cfg.numNodes, cfg.numFaults;
      var own := CtrbcMsg(r.myShare, cfg.genProof(r.shards, cfg.myid), cfg.myid);
      var commit := k >= OptThreshold(n, f) || (s.readyQuorumReached && k >= LatchThreshold(n, f));
      && s'.echoRoot == Some(msg.mp.root) && s'.message == Some(r.message) && s'.fragment == Some((r.myShare, own.mp))
      && (commit ==>
            && s'.terminated && out != [] && out[|out| - 1] == Terminate(r.message)
            && (!cfg.crash ==> BroadcastReady(own, instance) in out))
      && (!commit ==> !s'.terminated && OwnReady(own, instance) in out && BroadcastReady(own, instance) in out)
  {
    var root := msg.mp.root;
    var t := TriggersOf(cfg, s, root);
    var k, n, f := |s.echos[root]|, cfg.numNodes, cfg.numFaults;
    var commit := k >= OptThreshold(n, f) || (s.readyQuorumReached && k >= LatchThreshold(n, f));
    assert t.optCommit || t.latch <==> commit;
    var own := OwnMsg(cfg, s, msg);
    var rb := Rebuild(cfg, Marked(s, t), root, t, r, instance);
    assert rb == Accept(cfg, Marked(s, t), root, commit, r.shards, r.message, r.myShare, instance);
    var out1 := Announce(cfg, t, own, instance);
    assert EchoStored(cfg, s, msg, r, instance) == (rb.0, out1 + (rb.1 + []));
  }

  /** Storing a shard keeps the invariant. */
  lemma StoredWf(s: RbcState, root: Hash, origin: nat, shard: Bytes)
    requires Wf(s)
    ensures Wf(s.(echos := s.echos[root := Put(Inner(s.echos, root), origin, shard)]))
  {
    var u := s.(echos := s.echos[root := Put(Inner(s.echos, root), origin, shard)]);
    forall r | r in u.votes ensures r in u.echos && u.votes[r].Keys <= u.echos[r].Keys {
      assert s.votes[r].Keys <= s.echos[r].Keys;
    }
  }

  /** An ECHO to a terminated instance, one whose proof fails, or one from an origin already stored changes nothing. */
  lemma EchoNextIgnores(cfg: Config, s: RbcState, msg: CtrbcMsg, instance: nat)
    requires ConfigOk(cfg)
    requires s.terminated || !cfg.verify(msg) || msg.origin in Inner(s.echos, msg.mp.root)
    ensures EchoNext(cfg, s, msg, instance) == (s, [])
  {
  }

  /**
   * Any other ECHO stores exactly the origin's shard under the root, and
   * changes the echo root, fragment and value only to what the shards
   * now stored for the root recover, when they hash to it.
   */
  lemma EchoNextStores(cfg: Config, s: RbcState, msg: CtrbcMsg, instance: nat)
    requires ConfigOk(cfg) && Wf(s)
    requires !s.terminated && cfg.verify(msg) && msg.origin !in Inner(s.echos, msg.mp.root)
    ensures var s' := EchoNext(cfg, s, msg, instance).0;
      var root := msg.mp.root;
      && s'.echos == s.echos[root := Put(Inner(s.echos, root), msg.origin, msg.shard)]
      && Settled(cfg, s, s', root, Recover(cfg.reconstruct, s'.echos[root], cfg.numNodes, cfg.numFaults, cfg.myid))
      && (s'.echoRoot != s.echoRoot ==>
            var k, n, f := |s'.echos[root]|, cfg.numNodes, cfg.numFaults;
            k >= OptThreshold(n, f) || (s.readyQuorumReached && k >= LatchThreshold(n, f)) || k == n - f)
  {
    var root := msg.mp.root;
    var u := s.(echos := s.echos[root := Put(Inner(s.echos, root), msg.origin, msg.shard)]);
    StoredWf(s, root, msg.origin, msg.shard);
    var r := Recover(cfg.reconstruct, u.echos[root], cfg.numNodes, cfg.numFaults, cfg.myid);
    EchoStoredFrame(cfg, u, msg, r, instance);
    EchoStoredSettles(cfg, u, msg, r, instance);
    EchoStoredThresholds(cfg, u, msg, r, instance);
  }

  /**
   * The converse: an ECHO that brings a running instance's echoes to a
   * reconstruction threshold, when the shards recover into a value that
   * hashes to the root, settles that root and value. At the
   * optimistic-commit threshold, or the latch threshold with the READY
   * quorum, the instance terminates with `terminate` last and its READY
   * broadcast unless crashed; at exactly `n - f` otherwise it stays
   * running and handles and broadcasts its own READY.
   */
  lemma EchoNextAccepts(cfg: Config, s: RbcState, msg: CtrbcMsg, instance: nat)
    requires ConfigOk(cfg) && Wf(s)
    requires !s.terminated && cfg.verify(msg) && msg.origin !in Inner(s.echos, msg.mp.root)
    ensures var (s', out) := EchoNext(cfg, s, msg, instance);
      var root, n, f := msg.mp.root, cfg.numNodes, cfg.numFaults;
      var k := |Inner(s'.echos, root)|;
      var r := Recover(cfg.reconstruct, Inner(s'.echos, root), n, f, cfg.myid);
      var commit := k >= OptThreshold(n, f) || (s.readyQuorumReached && k >= LatchThreshold(n, f));
      (commit || k == n - f) && r.Recovered? && cfg.merkleRoot(r.shards) == root ==>
        var own := CtrbcMsg(r.myShare, cfg.genProof(r.shards, cfg.myid), cfg.myid);
        && s'.echoRoot == Some(root) && s'.message == Some(r.message)
        && (commit ==>
              && s'.terminated && out != [] && out[|out| - 1] == Terminate(r.message)
              && (!cfg.crash ==> BroadcastReady(own, instance) in out))
        && (!commit ==> !s'.terminated && OwnReady(own, instance) in out && BroadcastReady(own, instance) in out)
  {
    var root := msg.mp.root;
    var u := s.(echos := s.echos[root := Put(Inner(s.echos, root), msg.origin, msg.shard)]);
    StoredWf(s, root, msg.origin, msg.shard);
    var r := Recover(cfg.reconstruct, u.echos[root], cfg.numNodes, cfg.numFaults, cfg.myid);
    EchoStoredFrame(cfg, u, msg, r, instance);
    assert EchoNext(cfg, s, msg, instance) == EchoStored(cfg, u, msg, r, instance);
    var k, n, f := |u.echos[root]|, cfg.numNodes, cfg.numFaults;
    if (k >= OptThreshold(n, f) || (s.readyQuorumReached && k >= LatchThreshold(n, f)) || k == n - f)
       && r.Recovered? && cfg.merkleRoot(r.shards) == root {
      EchoStoredAccepts(cfg, u, msg, r, instance);
    }
  }

  /** An ECHO keeps the invariant and never lowers `sentVote`. */
  lemma EchoNextWf(cfg: Config, s: RbcState, msg: CtrbcMsg, instance: nat)
    requires ConfigOk(cfg) && Wf(s)
    ensures var s' := EchoNext(cfg, s, msg, instance).0;
      Wf(s') && (s.sentVote ==> s'.sentVote)
  {
    var root := msg.mp.root;
    if !(s.terminated || !cfg.verify(msg) || msg.origin in Inner(s.echos, root)) {
      var u := s.(echos := s.echos[root := Put(Inner(s.echos, root), msg.origin, msg.shard)]);
      StoredWf(s, root, msg.origin, msg.shard);
      var r := Recover(cfg.reconstruct, u.echos[root], cfg.numNodes, cfg.numFaults, cfg.myid);
      EchoStoredSettles(cfg, u, msg, r, instance);
      EchoStoredFlags(cfg, u, msg, r, instance);
    }
  }

  /** An ECHO never touches votes, readys or the READY quorum flag, and never lowers `sentReady`. */
  lemma EchoNextKeeps(cfg: Config, s: RbcState, msg: CtrbcMsg, instance: nat)
    requires ConfigOk(cfg) && Wf(s)
    ensures var s' := EchoNext(cfg, s, msg, instance).0;
      && s'.votes == s.votes && s'.readys == s.readys && s'.readyQuorumReached == s.readyQuorumReached
      && (s.sentReady ==> s'.sentReady)
  {
    var root := msg.mp.root;
    if !(s.terminated || !cfg.verify(msg) || msg.origin in Inner(s.echos, root)) {
      var u := s.(echos := s.echos[root := Put(Inner(s.echos, root), msg.origin, msg.shard)]);
      StoredWf(s, root, msg.origin, msg.shard);
      var r := Recover(cfg.reconstruct, u.echos[root], cfg.numNodes, cfg.numFaults, cfg.myid);
      EchoStoredFrame(cfg, u, msg, r, instance);
      EchoStoredFlags(cfg, u, msg, r, instance);
    }
  }

  /** An ECHO sends at most one VOTE, for the instance, and only when it raises `sentVote` and is not crashed. */
  lemma EchoNextVotes(cfg: Config, s: RbcState, msg: CtrbcMsg, instance: nat)
    requires ConfigOk(cfg) && Wf(s)
    ensures var (s', out) := EchoNext(cfg, s, msg, instance);
      OneVote(out, instance) && (HasVote(out) ==> !s.sentVote && s'.sentVote && !cfg.crash)
  {
    var root := msg.mp.root;
    if !(s.terminated || !cfg.verify(msg) || msg.origin in Inner(s.echos, root)) {
      var u := s.(echos := s.echos[root := Put(Inner(s.echos, root), msg.origin, msg.shard)]);
      StoredWf(s, root, msg.origin, msg.shard);
      var r := Recover(cfg.reconstruct, u.echos[root], cfg.numNodes, cfg.numFaults, cfg.myid);
      EchoStoredVotes(cfg, u, msg, r, instance);
      EchoStoredVoteSender(cfg, u, msg, r, instance);
    }
  }

  /**
   * An ECHO calls `terminate` at most once, last, and only when it
   * terminates a running instance; under the invariant it panics only
   * when the shards recovered for the root leave a slot empty.
   */
  lemma EchoNextTerminates(cfg: Config, s: RbcState, msg: CtrbcMsg, instance: nat)
    requires ConfigOk(cfg) && Wf(s)
    ensures var (s', out) := EchoNext(cfg, s, msg, instance);
      && TerminateLast(out) && (forall e :: e in out && e.Terminate? ==> !s.terminated && s'.terminated)
      && (Panic in out ==>
            Recover(cfg.reconstruct, Inner(s'.echos, msg.mp.root), cfg.numNodes, cfg.numFaults, cfg.myid).Crashed?)
      && (!s.terminated && s'.terminated ==>
            var k, n, f := |Inner(s'.echos, msg.mp.root)|, cfg.numNodes, cfg.numFaults;
            k >= OptThreshold(n, f) || (s.readyQuorumReached && k >= LatchThreshold(n, f)) || (k == n && s.echoRoot.Some?))
  {
    var root := msg.mp.root;
    if !(s.terminated || !cfg.verify(msg) || msg.origin in Inner(s.echos, root)) {
      var u := s.(echos := s.echos[root := Put(Inner(s.echos, root), msg.origin, msg.shard)]);
      StoredWf(s, root, msg.origin, msg.shard);
      var r := Recover(cfg.reconstruct, u.echos[root], cfg.numNodes, cfg.numFaults, cfg.myid);
      EchoStoredTerminates(cfg, u, msg, r, instance);
      EchoStoredTerminateLast(cfg, u, msg, r, instance);
      EchoStoredPanics(cfg, u, msg, r, instance);
      EchoStoredFrame(cfg, u, msg, r, instance);
      EchoStoredThresholds(cfg, u, msg, r, instance);
    }
  }

  // --------------------------------------------------------------- VOTE

  /** Whether a VOTE counts: it repeats the shard its origin echoed for the root, or its proof verifies. */
  predicate VoteAccepted(cfg: Config, s: RbcState, msg: CtrbcMsg)
  {
    var es := Inner(s.echos, msg.mp.root);
    (msg.origin in es && es[msg.origin] == msg.shard) || cfg.verify(msg)
  }

  /**
   * The state once a VOTE has been looked at: the echo and vote entries
   * for the root exist, and the vote is recorded when its origin has
   * echoed for the root and the vote counts.
   */
  function VoteRecorded(cfg: Config, s: RbcState, msg: CtrbcMsg): RbcState
  {
    var root := msg.mp.root;
    var es, vs := Inner(s.echos, root), Inner(s.votes, root);
    s.(echos := s.echos[root := es],
       votes := s.votes[root := if msg.origin in es && VoteAccepted(cfg, s, msg) then Put(vs, msg.origin, msg.shard) else vs])
  }

  /**
   * `handle_vote`. A terminated instance ignores it. Otherwise the echo
   * and vote entries for the root are created; a vote from an origin
   * that has not echoed must verify and is not recorded; one from an
   * origin that has is recorded when it repeats the echoed shard or
   * verifies. A failed proof stops the handler; otherwise the READY
   * threshold applies.
   */
  function VoteNext(cfg: Config, s: RbcState, msg: CtrbcMsg, instance: nat): (RbcState, seq<Effect>)
    requires ConfigOk(cfg)
  {
    if s.terminated then (s, [])
    else if VoteAccepted(cfg, s, msg) then VoteCounted(cfg, VoteRecorded(cfg, s, msg), msg, instance)
    else (VoteRecorded(cfg, s, msg), [])
  }

  /** The READY threshold on the votes for the root: one READY, unless crashed, the first time it is met. */
  function VoteCounted(cfg: Config, s: RbcState, msg: CtrbcMsg, instance: nat): (RbcState, seq<Effect>)
    requires ConfigOk(cfg)
  {
    if !s.sentReady && |Inner(s.votes, msg.mp.root)| >= ReadyThreshold(cfg.numNodes, cfg.numFaults) then
      (s.(sentReady := true), if cfg.crash then [] else [BroadcastReady(OwnMsg(cfg, s, msg), instance)])
    else (s, [])
  }

  /**
   * Looking at a VOTE creates the root's entries, changes no stored echo
   * and no vote under another root, and under the root records at most
   * the origin's shard, and only for an origin that echoed that shard or
   * whose proof verifies.
   */
  lemma VoteRecordedMaps(cfg: Config, s: RbcState, msg: CtrbcMsg)
    ensures var u := VoteRecorded(cfg, s, msg);
      var root := msg.mp.root;
      var es: map<nat, Bytes>, vs: map<nat, Bytes> := Inner(s.echos, root), Inner(s.votes, root);
      && u.echos.Keys == s.echos.Keys + {root} && u.votes.Keys == s.votes.Keys + {root}
      && (forall r :: Inner(u.echos, r) == Inner(s.echos, r))
      && (forall r :: r != root ==> Inner(u.votes, r) == Inner(s.votes, r))
      && (Inner(u.votes, root) == vs
          || (&& msg.origin in es && (es[msg.origin] == msg.shard || cfg.verify(msg))
              && Inner(u.votes, root) == Put(vs, msg.origin, msg.shard)))
  {
  }

  /** Looking at a VOTE keeps the invariant and changes only the echo and vote maps. */
  lemma VoteRecordedWf(cfg: Config, s: RbcState, msg: CtrbcMsg)
    requires Wf(s)
    ensures var u := VoteRecorded(cfg, s, msg);
      Wf(u) && u == s.(echos := u.echos, votes := u.votes)
  {
    var root := msg.mp.root;
    var u := VoteRecorded(cfg, s, msg);
    forall r | r in u.votes ensures r in u.echos && u.votes[r].Keys <= u.echos[r].Keys {
      if r != root {
        assert u.votes[r] == s.votes[r];
      }
    }
  }

  /**
   * A VOTE keeps the invariant and leaves a terminated instance alone.
   * Otherwise it changes only the echo and vote maps, as looking at it
   * does, and `sentReady`.
   */
  lemma VoteNextState(cfg: Config, s: RbcState, msg: CtrbcMsg, instance: nat)
    requires ConfigOk(cfg) && Wf(s)
    ensures var (s', out) := VoteNext(cfg, s, msg, instance);
      && Wf(s')
      && (s.terminated ==> s' == s && out == [])
      && (!s.terminated ==> s' == VoteRecorded(cfg, s, msg).(sentReady := s'.sentReady))
  {
    VoteRecordedWf(cfg, s, msg);
  }

  /** A VOTE only raises `sentReady`, and only with `ceil((n+f-1)/2)` votes recorded for the root. */
  lemma VoteNextFlag(cfg: Config, s: RbcState, msg: CtrbcMsg, instance: nat)
    requires ConfigOk(cfg)
    ensures var s' := VoteNext(cfg, s, msg, instance).0;
      && (s.sentReady ==> s'.sentReady)
      && (s'.sentReady != s.sentReady ==> |Inner(s'.votes, msg.mp.root)| >= ReadyThreshold(cfg.numNodes, cfg.numFaults))
  {
  }

  /**
   * A VOTE changes no stored echo and no vote under another root; under
   * the root it records at most the origin's shard, and only for an
   * origin that echoed that shard or whose proof verifies.
   */
  lemma VoteNextRecords(cfg: Config, s: RbcState, msg: CtrbcMsg, instance: nat)
    requires ConfigOk(cfg) && Wf(s)
    ensures var (s', out) := VoteNext(cfg, s, msg, instance);
      var root := msg.mp.root;
      var es: map<nat, Bytes>, vs: map<nat, Bytes> := Inner(s.echos, root), Inner(s.votes, root);
      && (forall r :: Inner(s'.echos, r) == Inner(s.echos, r))
      && (forall r :: r != root ==> Inner(s'.votes, r) == Inner(s.votes, r))
      && (Inner(s'.votes, root) == vs
          || (&& msg.origin in es && (es[msg.origin] == msg.shard || cfg.verify(msg))
              && Inner(s'.votes, root) == Put(vs, msg.origin, msg.shard)))
  {
    VoteRecordedMaps(cfg, s, msg);
    VoteNextState(cfg, s, msg, instance);
  }

  /**
   * A VOTE sends nothing but, at most, one READY: only when it raises
   * `sentReady`, only when not crashed, carrying the stored fragment or
   * else the message's shard and proof, under the replica's own id.
   */
  lemma VoteNextReady(cfg: Config, s: RbcState, msg: CtrbcMsg, instance: nat)
    requires ConfigOk(cfg)
    ensures var (s', out) := VoteNext(cfg, s, msg, instance);
      && (out != [] ==> !s.sentReady && s'.sentReady && !cfg.crash && out == [BroadcastReady(OwnMsg(cfg, s, msg), instance)])
      && (s'.sentReady != s.sentReady ==> (out != [] <==> !cfg.crash))
  {
  }

  // ------------------------------------------------- the handlers' loops

  /** `handle_echo` on the instance's state. */
  method EchoOn(cfg: Config, s: RbcState, msg: CtrbcMsg, instance: nat) returns (s': RbcState, out: seq<Effect>)
    requires ConfigOk(cfg)
    ensures (s', out) == EchoNext(cfg, s, msg, instance)
  {
    if s.terminated || !cfg.verify(msg) {
      return s, [];
    }
    var root := msg.mp.root;
    var es: map<nat, Bytes> := Inner(s.echos, root);
    if msg.origin in es {
      return s, [];
    }
    es := Put(es, msg.origin, msg.shard);
    var u := s.(echos := s.echos[root := es]);
    s', out := EchoStoredOn(cfg, u, msg, instance);
  }

  /** The thresholds, with the reconstruction loops. */
  method EchoStoredOn(cfg: Config, s: RbcState, msg: CtrbcMsg, instance: nat) returns (s': RbcState, out: seq<Effect>)
    requires ConfigOk(cfg) && msg.mp.root in s.echos
    ensures (s', out) == EchoStored(cfg, s, msg, Recover(cfg.reconstruct, s.echos[msg.mp.root], cfg.numNodes, cfg.numFaults, cfg.myid), instance)
  {
    var t := TriggersOf(cfg, s, msg.mp.root);
    if t.atN && (s.fragment.None? || s.message.None?) {
      return Marked(s, t.(atN := false)), [Panic];
    }
    out := Announce(cfg, t, OwnMsg(cfg, s, msg), instance);
    var more, stop;
    s', more, stop := RebuildOn(cfg, Marked(s, t), msg.mp.root, t, instance);
    var rest := if !stop && t.atN then AtN(cfg, s, instance) else [];
    out := out + (more + rest);
  }

  /** The recovery, with the reconstruction loops of `RecoverOn`. */
  method RebuildOn(cfg: Config, s: RbcState, root: Hash, t: Triggers, instance: nat)
    returns (s': RbcState, out: seq<Effect>, stop: bool)
    requires ConfigOk(cfg) && root in s.echos
    ensures (s', out, stop) == Rebuild(cfg, s, root, t, Recover(cfg.reconstruct, s.echos[root], cfg.numNodes, cfg.numFaults, cfg.myid), instance)
  {
    if !Reconstructs(s, t) {
      return s, [], false;
    }
    var r := RecoverOn(cfg.reconstruct, s.echos[root], cfg.numNodes, cfg.numFaults, cfg.myid);
    if r.Failed? {
      return s, [], true;
    }
    if r.Crashed? {
      return s, [Panic], true;
    }
    if cfg.merkleRoot(r.shards) != root {
      return s, [], false;
    }
    var own := CtrbcMsg(r.myShare, cfg.genProof(r.shards, cfg.myid), cfg.myid);
    s' := s.(echoRoot := Some(root), fragment := Some((r.myShare, own.mp)), message := Some(r.message));
    if t.optCommit || t.latch {
      s' := s'.(terminated := true);
      out := if cfg.crash then [] else [BroadcastReady(own, instance)];
      return s', out + [Terminate(r.message)], true;
    }
    return s', [OwnReady(own, instance), BroadcastReady(own, instance)], false;
  }

  /** `handle_vote` on the instance's state. */
  method VoteOn(cfg: Config, s: RbcState, msg: CtrbcMsg, instance: nat) returns (s': RbcState, out: seq<Effect>)
    requires ConfigOk(cfg)
    ensures (s', out) == VoteNext(cfg, s, msg, instance)
  {
    if s.terminated {
      return s, [];
    }
    var root := msg.mp.root;
    var es: map<nat, Bytes> := Inner(s.echos, root);
    var vs: map<nat, Bytes> := Inner(s.votes, root);
    var counts := (msg.origin in es && es[msg.origin] == msg.shard) || cfg.verify(msg);
    if msg.origin in es && counts {
      vs := Put(vs, msg.origin, msg.shard);
    }
    s' := s.(echos := s.echos[root := es], votes := s.votes[root := vs]);
    out := [];
    if counts && !s'.sentReady && |vs| >= ReadyThreshold(cfg.numNodes, cfg.numFaults) {
      out := if cfg.crash then [] else [BroadcastReady(OwnMsg(cfg, s', msg), instance)];
      s' := s'.(sentReady := true);
    }
  }

  // ------------------------------------------------------------ context

  /** The VOTE broadcasts for `instance` in `out`. */
  function VoteCount(out: seq<Effect>, instance: nat): nat
  {
    if out == [] then 0
    else VoteCount(out[..|out| - 1], instance) + (if out[|out| - 1].BroadcastVote? && out[|out| - 1].instance == instance then 1 else 0)
  }

  lemma {:induction false} VoteCountAppend(a: seq<Effect>, b: seq<Effect>, instance: nat)
    ensures VoteCount(a + b, instance) == VoteCount(a, instance) + VoteCount(b, instance)
    decreases |b|
  {
    if b == [] {
      assert a + b == a;
    } else {
      var b' := b[..|b| - 1];
      assert (a + b)[..|a + b| - 1] == a + b';
      assert (a + b)[|a + b| - 1] == b[|b| - 1];
      VoteCountAppend(a, b', instance);
    }
  }

  /** No VOTE, no count. */
  lemma {:induction false} VoteCountNone(out: seq<Effect>, instance: nat)
    requires NoVote(out)
    ensures VoteCount(out, instance) == 0
    decreases |out|
  {
    if out != [] {
      VoteCountNone(out[..|out| - 1], instance);
    }
  }

  /** Effects with at most one VOTE, for `instance`, count it once there and nowhere else. */
  lemma {:induction false} VoteCountAtMostOne(out: seq<Effect>, instance: nat, other: nat)
    requires OneVote(out, instance)
    ensures VoteCount(out, other) <= (if other == instance && HasVote(out) then 1 else 0)
    decreases |out|
  {
    if out != [] {
      var front := out[..|out| - 1];
      assert OneVote(front, instance);
      VoteCountAtMostOne(front, instance, other);
      if out[|out| - 1].BroadcastVote? {
        assert NoVote(front);
        VoteCountNone(front, other);
      } else if HasVote(front) {
        var i :| 0 <= i < |front| && front[i].BroadcastVote?;
        assert out[i].BroadcastVote?;
      }
    }
  }

  /** An instance's state in a replica's map, fresh when absent. */
  function StateIn(ctx: map<nat, RbcState>, instance: nat): RbcState
  {
    if instance in ctx then ctx[instance] else New()
  }

  /** Each instance has broadcast a VOTE at most once, and only if its `sent_vote` flag is set. */
  ghost predicate VotesBounded(ctx: map<nat, RbcState>, outbox: seq<Effect>)
  {
    forall i :: VoteCount(outbox, i) <= (if StateIn(ctx, i).sentVote then 1 else 0)
  }

  /**
   * A handler that sends at most one VOTE, for its instance, and only
   * when it raises the instance's `sent_vote`, keeps every instance's
   * VOTE count within its flag.
   */
  lemma VotesAfter(ctx: map<nat, RbcState>, outbox: seq<Effect>, instance: nat, s: RbcState, out: seq<Effect>)
    requires VotesBounded(ctx, outbox) && OneVote(out, instance)
    requires StateIn(ctx, instance).sentVote ==> s.sentVote
    requires HasVote(out) ==> !StateIn(ctx, instance).sentVote && s.sentVote
    ensures VotesBounded(ctx[instance := s], outbox + out)
  {
    forall i ensures VoteCount(outbox + out, i) <= (if StateIn(ctx[instance := s], i).sentVote then 1 else 0) {
      VoteCountAppend(outbox, out, i);
      VoteCountAtMostOne(out, instance, i);
      assert VoteCount(outbox, i) <= (if StateIn(ctx, i).sentVote then 1 else 0);
    }
  }

  /** A replica's borbc context. */
  class Context {
    const cfg: Config
    var rbcContext: map<nat, RbcState>
    var outbox: seq<Effect>
    /** Set when the tokio task has panicked; no handler runs afterwards. */
    var panicked: bool

    /**
     * The configuration is sound, every instance keeps the state
     * invariant, and each instance has broadcast a VOTE at most once, and
     * only if its `sent_vote` flag is set.
     */
    ghost predicate Valid()
      reads this
    {
      && ConfigOk(cfg)
      && (forall i :: i in rbcContext ==> Wf(rbcContext[i]))
      && VotesBounded(rbcContext, outbox)
    }

    /** `self.rbc_context.entry(instance_id).or_default()`, read only. */
    function StateOf(instance: nat): RbcState
      reads this
    {
      StateIn(rbcContext, instance)
    }

    constructor (cfg: Config)
      requires ConfigOk(cfg)
      ensures Valid() && this.cfg == cfg && rbcContext == map[] && outbox == [] && !panicked
    {
      this.cfg := cfg;
      rbcContext, outbox, panicked := map[], [], false;
    }

    /** `handle_echo`: the instance's state and the effects follow `EchoNext`. */
    method HandleEcho(msg: CtrbcMsg, instance: nat)
      requires Valid() && !panicked
      modifies this
      ensures Valid() && instance in rbcContext && rbcContext == old(rbcContext)[instance := rbcContext[instance]]
      ensures |outbox| >= |old(outbox)| && outbox[..|old(outbox)|] == old(outbox)
      ensures (rbcContext[instance], outbox[|old(outbox)|..]) == EchoNext(cfg, old(StateOf(instance)), msg, instance)
      ensures panicked <==> Panic in outbox[|old(outbox)|..]
    {
      var s0 := StateOf(instance);
      EchoNextWf(cfg, s0, msg, instance);
      EchoNextVotes(cfg, s0, msg, instance);
      var s, out := EchoOn(cfg, s0, msg, instance);
      VotesAfter(rbcContext, outbox, instance, s, out);
      Commit(instance, s, out);
    }

    /** `handle_vote`: the instance's state and the effects follow `VoteNext`. */
    method HandleVote(msg: CtrbcMsg, instance: nat)
      requires Valid() && !panicked
      modifies this
      ensures Valid() && instance in rbcContext && rbcContext == old(rbcContext)[instance := rbcContext[instance]]
      ensures |outbox| >= |old(outbox)| && outbox[..|old(outbox)|] == old(outbox)
      ensures (rbcContext[instance], outbox[|old(outbox)|..]) == VoteNext(cfg, old(StateOf(instance)), msg, instance)
      ensures panicked <==> Panic in outbox[|old(outbox)|..]
    {
      var s0 := StateOf(instance);
      VoteNextState(cfg, s0, msg, instance);
      VoteNextFlag(cfg, s0, msg, instance);
      VoteNextReady(cfg, s0, msg, instance);
      var s, out := VoteOn(cfg, s0, msg, instance);
      assert OneVote(out, instance) && !HasVote(out);
      VotesAfter(rbcContext, outbox, instance, s, out);
      Commit(instance, s, out);
    }

    /** Writes back an instance's state and a handler's effects; a panic stops the tokio task. */
    method Commit(instance: nat, s: RbcState, out: seq<Effect>)
      requires ConfigOk(cfg) && Wf(s) && (forall i :: i in rbcContext ==> Wf(rbcContext[i]))
      requires VotesBounded(rbcContext[instance := s], outbox + out)
      modifies this
      ensures Valid() && rbcContext == old(rbcContext)[instance := s] && outbox == old(outbox) + out
      ensures outbox[|old(outbox)|..] == out && panicked == (Panic in out)
    {
      rbcContext := rbcContext[instance := s];
      outbox := outbox + out;
      panicked := Panic in out;
      assert outbox[|old(outbox)|..] == out;
    }
  }
}
