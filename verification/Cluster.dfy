/** The replicas together with the network and an adversary.

    A run is a sequence of deliveries. What a correct replica has signed is exactly what its
    main thread handed to the crypto thread, so the set of messages that may be delivered is
    read off the replicas' `toCrypto` histories: any of them may arrive anywhere, any number of
    times, in any order, or never. A faulty replica signs whatever it likes. */
module Cluster {
  import opened Messages
  import opened ReplicaModel
  import opened Invariants

  datatype State = State(config: Config, faulty: set<nat>, replicas: seq<Replica>)

  datatype Delivery = Delivery(to: nat, message: ToReplica)

  /** Replica ids are bytes, and the code reduces views modulo `n` as a byte. */
  predicate WellConfigured(config: Config, faulty: set<nat>) {
    && config.f >= 1 && config.n == 3 * config.f + 1 && config.n <= 255
    && |faulty| <= config.f && forall i :: i in faulty ==> i < config.n
  }

  function Start(config: Config, faulty: set<nat>, respond: seq<Call> -> Bytes): State {
    State(config, faulty, seq(config.n, i requires 0 <= i => New(i, config, respond)))
  }

  /** The replica whose key must have signed `m`. */
  function Signer(config: Config, m: ToReplica): nat
    requires config.n > 0 && !m.ToRequest?
  {
    match m
    case ToPrePrepare(pp, _) => pp.viewNumber % config.n
    case ToPrepare(p) => p.replicaId
    case ToCommit(c) => c.replicaId
  }

  /** A crypto thread given `sent` has signed these fields as a vote. Prepares and commits have the
      same fields, and the kind of a vote is outside what is signed, so either passes as the other. */
  predicate VoteSigned(sent: seq<ToCrypto>, v: nat, k: nat, d: Digest, j: nat) {
    SendPrepare(Prepare(v, k, d, j)) in sent || SendCommit(Commit(v, k, d, j)) in sent
  }

  /** A crypto thread given `sent` has signed the signed part of `m`. In a pre-prepare this is
      the op number and the digest, which the crypto thread itself fills in. */
  predicate Signed(sent: seq<ToCrypto>, m: ToReplica) {
    match m
    case ToRequest(_) => false
    case ToPrePrepare(pp, _) =>
      pp.digest.Sha256? && SendPrePrepare(pp.viewNumber, pp.opNumber, pp.digest.requests) in sent
    case ToPrepare(p) => VoteSigned(sent, p.viewNumber, p.opNumber, p.digest, p.replicaId)
    case ToCommit(c) => VoteSigned(sent, c.viewNumber, c.opNumber, c.digest, c.replicaId)
  }

  /** `m` exists and passes the checks made before the main thread sees it: requests are
      trusted, anything else needs the digest of its body and a valid signature. */
  predicate Deliverable(s: State, m: ToReplica)
    requires s.config.n > 0 && |s.replicas| == s.config.n
  {
    m.ToRequest? ||
    (Hashed(m) && Signer(s.config, m) < s.config.n &&
     (Signer(s.config, m) !in s.faulty ==> Signed(s.replicas[Signer(s.config, m)].toCrypto, m)))
  }

  predicate CanStep(s: State, e: Delivery) {
    s.config.n > 0 && |s.replicas| == s.config.n && e.to < s.config.n && e.to !in s.faulty && Deliverable(s, e.message)
  }

  /** A delivery that the network cannot make changes nothing. */
  function Step(s: State, e: Delivery): State {
    if CanStep(s, e) then s.(replicas := s.replicas[e.to := Poll(s.replicas[e.to], e.message)]) else s
  }

  function After(s: State, es: seq<Delivery>): State
    decreases |es|
  {
    if es == [] then s else Step(After(s, es[..|es| - 1]), es[|es| - 1])
  }

  ghost predicate Reaches(s: State, s': State) {
    exists es :: s' == After(s, es)
  }

  ghost predicate Initial(s: State) {
    exists respond: seq<Call> -> Bytes :: s == Start(s.config, s.faulty, respond)
  }

  ghost predicate Reachable(s: State) {
    WellConfigured(s.config, s.faulty) && exists s0 :: Initial(s0) && Reaches(s0, s)
  }

  // ---------- Where the contents of a replica come from ----------

  /** Replica `j` exists and, if it is correct, has signed a vote of one kind or the other. */
  ghost predicate Voted(s: State, k: nat, d: Digest, j: nat)
    requires |s.replicas| == s.config.n
  {
    j < s.config.n && (j !in s.faulty ==> VoteSigned(s.replicas[j].toCrypto, 0, k, d, j))
  }

  ghost predicate VotesSigned(s: State, r: Replica)
    requires |s.replicas| == s.config.n
  {
    (forall k, d, j :: j in Votes(r.prepareQuorums, k, d) ==> Voted(s, k, d, j)) &&
    (forall k, d, j :: j in Votes(r.commitQuorums, k, d) ==> Voted(s, k, d, j))
  }

  /** An entry for the current view was sent by the primary, if the primary is correct. */
  ghost predicate EntrySigned(s: State, e: LogEntry)
    requires s.config.n > 0 && |s.replicas| == s.config.n
  {
    0 !in s.faulty && e.prePrepare.viewNumber == 0 ==>
      SendPrePrepare(0, e.prePrepare.opNumber, e.requests) in s.replicas[0].toCrypto
  }

  ghost predicate EntriesSigned(s: State, r: Replica)
    requires s.config.n > 0 && |s.replicas| == s.config.n
  {
    (forall e :: e in r.log ==> EntrySigned(s, e)) && (forall k :: k in r.reorder ==> EntrySigned(s, r.reorder[k]))
  }

  ghost predicate Authentic(s: State, r: Replica)
    requires s.config.n > 0 && |s.replicas| == s.config.n
  {
    VotesSigned(s, r) && EntriesSigned(s, r)
  }

  ghost predicate Member(s: State, i: nat)
    requires |s.replicas| == s.config.n
  {
    i < s.config.n && s.replicas[i].id == i && s.replicas[i].config == s.config && LogInv(s.replicas[i])
  }

  ghost predicate Inv(s: State) {
    && WellConfigured(s.config, s.faulty)
    && |s.replicas| == s.config.n
    && (forall i: nat :: i < s.config.n ==> Member(s, i) && Authentic(s, s.replicas[i]))
  }

  // ---------- Preservation ----------

  ghost predicate EntriesFrom(r: Replica, r': Replica, m: LogEntry) {
    (forall e :: e in r'.log ==> e in r.log || e in r.reorder.Values || e == m) &&
    (forall k :: k in r'.reorder ==> r'.reorder[k] in r.log || r'.reorder[k] in r.reorder.Values || r'.reorder[k] == m)
  }

  lemma {:induction false} DrainEntries(r: Replica, r0: Replica, m: LogEntry)
    requires EntriesFrom(r0, r, m)
    ensures EntriesFrom(r0, Drain(r), m)
    decreases |r.reorder|
  {
    if CanDrain(r) {
      DrainEntries(DrainOne(r), r0, m);
    }
  }

  lemma HandlePrePrepareEntries(r: Replica, e: LogEntry)
    ensures EntriesFrom(r, HandlePrePrepare(r, e), e)
  {
  }

  lemma PollEntries(r: Replica, pp: PrePrepare, qs: seq<Request>)
    ensures EntriesFrom(r, Poll(r, ToPrePrepare(pp, qs)), LogEntry(pp, qs))
  {
    var e := LogEntry(pp, qs);
    if pp.opNumber == NextEntry(r) {
      HandlePrePrepareEntries(r, e);
      DrainEntries(HandlePrePrepare(r, e), r, e);
    }
  }

  /** A prepare adds at most the voter it names, and nothing else touches the prepare votes. */
  lemma PollPrepareQuorums(r: Replica, m: ToReplica)
    ensures Poll(r, m).prepareQuorums == r.prepareQuorums ||
            (m.ToPrepare? && m.prepare.viewNumber == r.viewNumber &&
             Poll(r, m).prepareQuorums ==
               AddVote(r.prepareQuorums, m.prepare.opNumber, m.prepare.digest, m.prepare.replicaId))
  {
    match m
    case ToRequest(q) => HandleRequestFrame(r, q);
    case ToPrePrepare(pp, qs) => ReceivePrePrepareFrame(r, LogEntry(pp, qs));
    case ToPrepare(p) => HandlePrepareFrame(r, p);
    case ToCommit(c) => HandleCommitFrame(r, c);
  }

  /** The same for commits. */
  lemma PollCommitQuorums(r: Replica, m: ToReplica)
    ensures Poll(r, m).commitQuorums == r.commitQuorums ||
            (m.ToCommit? && m.commit.viewNumber == r.viewNumber &&
             Poll(r, m).commitQuorums ==
               AddVote(r.commitQuorums, m.commit.opNumber, m.commit.digest, m.commit.replicaId))
  {
    match m
    case ToRequest(q) => HandleRequestFrame(r, q);
    case ToPrePrepare(pp, qs) => ReceivePrePrepareFrame(r, LogEntry(pp, qs));
    case ToPrepare(p) => HandlePrepareFrame(r, p);
    case ToCommit(c) => HandleCommitFrame(r, c);
  }

  /** Histories only grow from `s` to `s'`. */
  ghost predicate Later(s: State, s': State) {
    && s'.config == s.config && s'.faulty == s.faulty && |s'.replicas| == |s.replicas| == s.config.n
    && forall i :: 0 <= i < |s.replicas| ==> Grows(s.replicas[i], s'.replicas[i])
  }

  lemma StepLater(s: State, e: Delivery)
    requires Inv(s)
    ensures Later(s, Step(s, e))
    ensures forall i: nat :: i < s.config.n ==> Member(Step(s, e), i)
  {
    var s' := Step(s, e);
    forall i: nat | i < s.config.n ensures Grows(s.replicas[i], s'.replicas[i]) && Member(s', i) {
      assert Member(s, i);
      if i == e.to && CanStep(s, e) {
        PollKeeps(s.replicas[i], e.message);
      }
    }
  }

  lemma AuthenticLater(s: State, s': State, r: Replica)
    requires s.config.n > 0 && Later(s, s') && Authentic(s, r)
    ensures Authentic(s', r)
  {
  }

  lemma DeliveryVotes(s: State, r: Replica, m: ToReplica)
    requires s.config.n > 0 && |s.replicas| == s.config.n
    requires r.viewNumber == 0 && VotesSigned(s, r) && Deliverable(s, m)
    ensures VotesSigned(s, Poll(r, m))
  {
    forall k, d, j | j in Votes(Poll(r, m).prepareQuorums, k, d) ensures Voted(s, k, d, j) {
      PollPrepareQuorums(r, m);
      assert j in Votes(r.prepareQuorums, k, d) || m == ToPrepare(Prepare(0, k, d, j));
    }
    forall k, d, j | j in Votes(Poll(r, m).commitQuorums, k, d) ensures Voted(s, k, d, j) {
      PollCommitQuorums(r, m);
      assert j in Votes(r.commitQuorums, k, d) || m == ToCommit(Commit(0, k, d, j));
    }
  }

  lemma DeliveredEntrySigned(s: State, pp: PrePrepare, qs: seq<Request>)
    requires s.config.n > 0 && |s.replicas| == s.config.n && Deliverable(s, ToPrePrepare(pp, qs))
    ensures EntrySigned(s, LogEntry(pp, qs))
  {
  }

  lemma DeliveryEntries(s: State, r: Replica, m: ToReplica)
    requires s.config.n > 0 && |s.replicas| == s.config.n
    requires EntriesSigned(s, r) && Deliverable(s, m)
    ensures EntriesSigned(s, Poll(r, m))
  {
    if m.ToPrePrepare? {
      var pp, qs := m.prePrepare, m.requests;
      DeliveredEntrySigned(s, pp, qs);
      PollEntries(r, pp, qs);
      forall x | x in r.reorder.Values ensures EntrySigned(s, x) {
        var k :| k in r.reorder && r.reorder[k] == x;
      }
    } else {
      PollLogFrame(r, m);
    }
  }

  lemma StepInv(s: State, e: Delivery)
    requires Inv(s)
    ensures Inv(Step(s, e)) && Later(s, Step(s, e))
  {
    var s' := Step(s, e);
    StepLater(s, e);
    forall i: nat | i < s.config.n ensures Authentic(s', s'.replicas[i]) {
      assert Member(s, i);
      if i == e.to && CanStep(s, e) {
        DeliveryVotes(s, s.replicas[i], e.message);
        DeliveryEntries(s, s.replicas[i], e.message);
      }
      AuthenticLater(s, s', s'.replicas[i]);
    }
  }

  lemma StartInv(s: State)
    requires WellConfigured(s.config, s.faulty) && Initial(s)
    ensures Inv(s)
  {
  }

  /** `Inv` holds along every run, and nothing recorded is ever lost. */
  lemma {:induction false} RunInv(s: State, es: seq<Delivery>)
    requires Inv(s)
    ensures Inv(After(s, es)) && Later(s, After(s, es))
    decreases |es|
  {
    if es != [] {
      var m := After(s, es[..|es| - 1]);
      RunInv(s, es[..|es| - 1]);
      StepInv(m, es[|es| - 1]);
      forall i | 0 <= i < |s.replicas| ensures Grows(s.replicas[i], After(s, es).replicas[i]) {
        GrowsTransitive(s.replicas[i], m.replicas[i], After(s, es).replicas[i]);
      }
    }
  }

  lemma {:induction false} RunConfig(s: State, es: seq<Delivery>)
    ensures After(s, es).config == s.config && After(s, es).faulty == s.faulty
    decreases |es|
  {
    if es != [] {
      RunConfig(s, es[..|es| - 1]);
    }
  }

  lemma ReachableInv(s: State)
    requires Reachable(s)
    ensures Inv(s)
  {
    var s0 :| Initial(s0) && Reaches(s0, s);
    var es :| s == After(s0, es);
    RunConfig(s0, es);
    StartInv(s0);
    RunInv(s0, es);
  }

  // ---------- Runs ----------

  lemma {:induction false} AfterAppend(s: State, es: seq<Delivery>, es': seq<Delivery>)
    ensures After(s, es + es') == After(After(s, es), es')
    decreases |es'|
  {
    if es' == [] {
      assert es + es' == es;
    } else {
      AfterAppend(s, es, es'[..|es'| - 1]);
      assert (es + es')[..|es + es'| - 1] == es + es'[..|es'| - 1];
    }
  }

  lemma ReachesTransitive(a: State, b: State, c: State)
    requires Reaches(a, b) && Reaches(b, c)
    ensures Reaches(a, c)
  {
    var es :| b == After(a, es);
    var es' :| c == After(b, es');
    AfterAppend(a, es, es');
  }

  lemma ReachesSelf(s: State)
    ensures Reaches(s, s)
  {
    assert After(s, []) == s;
  }

  lemma StepReaches(s: State, e: Delivery)
    ensures Reaches(s, Step(s, e))
  {
    assert [e][..0] == [];
    assert After(s, [e]) == Step(After(s, []), e);
  }

  lemma StepReachable(s: State, e: Delivery)
    requires Reachable(s)
    ensures Reachable(Step(s, e))
  {
    var s0 :| Initial(s0) && Reaches(s0, s);
    StepReaches(s, e);
    ReachesTransitive(s0, s, Step(s, e));
  }
}
