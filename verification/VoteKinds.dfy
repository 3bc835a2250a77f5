/** What follows from the kind of a vote not being signed. One replica can be brought to execute a
    batch by the prepares of the others alone, which it first counts as prepares and then as commits.
    No faulty replica is needed. */
module VoteKinds {
  import opened Messages
  import opened ReplicaModel
  import opened Invariants
  import opened Sets
  import opened Cluster
  import opened Agreement
  import opened Equivocation

  /** Whoever can deliver a vote can deliver the vote of the other kind. */
  lemma KindsInterchange(s: State, v: nat, k: nat, d: Digest, j: nat)
    requires s.config.n > 0 && |s.replicas| == s.config.n
    ensures Deliverable(s, ToPrepare(Prepare(v, k, d, j))) <==> Deliverable(s, ToCommit(Commit(v, k, d, j)))
  {
  }

  // ---------- One batch, logged by every correct backup ----------

  function Backups(config: Config, faulty: set<nat>): set<nat> {
    Upto(config.n) - faulty - {0}
  }

  lemma BackupsOutnumber(config: Config, faulty: set<nat>)
    requires WellConfigured(config, faulty)
    ensures |Backups(config, faulty)| >= 2 * config.f && |faulty + Backups(config, faulty)| > 2 * config.f
  {
    var xs := Backups(config, faulty);
    assert Upto(config.n) == (faulty + xs) + (Upto(config.n) * {0} - faulty);
    SubsetSize(Upto(config.n) * {0} - faulty, {0});
    assert |faulty + xs| == |faulty| + |xs|;
  }

  /** `r` has counted no vote and executed nothing. */
  ghost predicate Uncounted(r: Replica) {
    r.prepareQuorums == map[] && r.commitQuorums == map[] && !r.panicked && r.executeNumber == 0
  }

  ghost predicate NoneCounted(s: State) {
    forall j: nat :: Correct(s, j) ==> Uncounted(s.replicas[j])
  }

  lemma FirstBatch(config: Config, respond: seq<Call> -> Bytes, q: Request)
    requires config.n > 0
    ensures var r := Poll(New(0, config, respond), ToRequest(q));
            r.toCrypto == [SendPrePrepare(0, 1, [q])] && Uncounted(r) && r.log == [] && r.reorder == map[]
  {
    var r := New(0, config, respond);
    assert IsPrimary(r) && r.requests + [q] == [q];
  }

  lemma StartUncounted(config: Config, faulty: set<nat>, respond: seq<Call> -> Bytes)
    ensures NoneCounted(Start(config, faulty, respond))
  {
  }

  /** A correct primary sends a batch when it is given a request; a faulty one may do so anyway. */
  lemma SendBatch(config: Config, faulty: set<nat>, respond: seq<Call> -> Bytes, q: Request) returns (s: State)
    requires WellConfigured(config, faulty)
    ensures Moves(Start(config, faulty, respond), s, {0}) && BatchOut(s, [q]) && NoneCounted(s)
    ensures AllFresh(s, Backups(config, faulty))
    ensures s.replicas[0].log == [] && s.replicas[0].reorder == map[]
  {
    var s0 := Start(config, faulty, respond);
    FreshStart(config, faulty, respond);
    StartUncounted(config, faulty, respond);
    assert 0 % config.n == 0;
    if 0 in faulty {
      s := s0;
      MovesSelf(s0, {0});
    } else {
      FirstBatch(config, respond, q);
      s := Deliver(s0, 0, ToRequest(q));
    }
  }

  lemma UncountedLater(s: State, s': State, xs: set<nat>, qs: seq<Request>)
    requires NoneCounted(s) && Moves(s, s', xs) && AllLogged(s', xs, qs)
    ensures NoneCounted(s')
  {
    forall j: nat | Correct(s', j) ensures Uncounted(s'.replicas[j]) {
      assert Correct(s, j);
    }
  }

  lemma AllLog(config: Config, faulty: set<nat>, respond: seq<Call> -> Bytes, q: Request) returns (s: State)
    requires WellConfigured(config, faulty)
    ensures Moves(Start(config, faulty, respond), s, Backups(config, faulty) + {0})
    ensures AllLogged(s, Backups(config, faulty), [q]) && AllVoting(s, Backups(config, faulty)) && NoneCounted(s)
    ensures PreparesOut(s, Sha256([q]), faulty + Backups(config, faulty)) && BatchOut(s, [q])
    ensures s.replicas[0].log == [] && s.replicas[0].reorder == map[]
  {
    var xs := Backups(config, faulty);
    var s1 := SendBatch(config, faulty, respond, q);
    s := TellBatch(s1, xs, [q]);
    MovesTransitive(Start(config, faulty, respond), s1, s, {0}, xs, xs + {0});
    UncountedLater(s1, s, xs, [q]);
    LoggedIsVoting(s, xs, [q]);
  }

  // ---------- Executing on prepares alone ----------

  lemma PreparedCommits(r: Replica)
    requires Voting(r) && r.id != 0 && IsPrepared(r, 1, r.log[0].prePrepare.digest)
    ensures Committing(r)
  {
    assert Votes(r.commitQuorums, 1, r.log[0].prePrepare.digest) == {};
  }

  /** A backup that logged `qs` executes it once it has been given each of the prepares twice, the
      second time as a commit. */
  lemma ExecuteOnPrepares(s: State, x: nat, js: set<nat>, qs: seq<Request>) returns (s': State)
    requires Reachable(s) && Correct(s, x) && x != 0 && Voting(s.replicas[x]) && s.replicas[x].log == [Entry(qs)]
    requires PreparesOut(s, Sha256(qs), js) && |js| > 2 * s.config.f
    ensures Moves(s, s', {x}) && s'.replicas[x].log == [Entry(qs)] && s'.replicas[x].executeNumber == 1
  {
    var d := Sha256(qs);
    var m := TakePrepares(s, x, d, js);
    PreparesOutLater(s, m, {x}, d, js, js);
    CorrectReplica(m, x);
    if !IsPrepared(m.replicas[x], 1, d) {
      SubsetSize(js, Votes(m.replicas[x].prepareQuorums, 1, d));
    }
    PreparedCommits(m.replicas[x]);
    forall j | j in js ensures Deliverable(m, ToCommit(Commit(0, 1, d, j))) {
      KindsInterchange(m, 0, 1, d, j);
    }
    s' := ExecuteOwn(m, x, js);
    MovesTransitive(s, m, s', {x}, {x}, {x});
  }

  /** Every one of `xs` has logged `qs` and may still vote. */
  ghost predicate AllReady(s: State, xs: set<nat>, qs: seq<Request>) {
    forall x :: x in xs ==> Correct(s, x) && x != 0 && Voting(s.replicas[x]) && s.replicas[x].log == [Entry(qs)]
  }

  ghost predicate AllExecuted(s: State, xs: set<nat>, qs: seq<Request>) {
    forall x :: x in xs ==> Correct(s, x) && s.replicas[x].log == [Entry(qs)] && s.replicas[x].executeNumber == 1
  }

  lemma ReadyLater(s: State, s': State, x: nat, xs: set<nat>, qs: seq<Request>)
    requires AllReady(s, xs, qs) && Moves(s, s', {x})
    ensures AllReady(s', xs - {x}, qs)
  {
  }

  lemma ExecutedBy(s: State, s': State, x: nat, xs: set<nat>, qs: seq<Request>)
    requires AllExecuted(s, {x}, qs) && Moves(s, s', xs - {x}) && AllExecuted(s', xs - {x}, qs)
    ensures AllExecuted(s', xs, qs)
  {
    assert Correct(s, x);
  }

  lemma {:induction false} AllExecute(s: State, xs: set<nat>, js: set<nat>, qs: seq<Request>) returns (s': State)
    requires Reachable(s) && AllReady(s, xs, qs) && PreparesOut(s, Sha256(qs), js) && |js| > 2 * s.config.f
    ensures Moves(s, s', xs) && AllExecuted(s', xs, qs)
    decreases |xs|
  {
    if xs == {} {
      s' := s;
      MovesSelf(s, xs);
    } else {
      var x :| x in xs;
      var m := ExecuteOnPrepares(s, x, js, qs);
      PreparesOutLater(s, m, {x}, Sha256(qs), js, js);
      ReadyLater(s, m, x, xs, qs);
      s' := AllExecute(m, xs - {x}, js, qs);
      MovesTransitive(s, m, s', {x}, xs - {x}, xs);
      ExecutedBy(m, s', x, xs, qs);
    }
  }

  /** As many correct replicas as one likes, up to `2f`, execute the batch of `q` alone. */
  lemma SomeExecute(config: Config, faulty: set<nat>, respond: seq<Call> -> Bytes, q: Request, m: nat)
    returns (s: State, xs: set<nat>)
    requires WellConfigured(config, faulty) && m <= 2 * config.f
    ensures Reachable(s) && Reaches(Start(config, faulty, respond), s) && s.config == config && s.faulty == faulty
    ensures |xs| == m && AllExecuted(s, xs, [q])
  {
    BackupsOutnumber(config, faulty);
    var s1 := AllLog(config, faulty, respond, q);
    xs := SubsetOfSize(Backups(config, faulty), m);
    s := AllExecute(s1, xs, faulty + Backups(config, faulty), [q]);
    ReachesTransitive(Start(config, faulty, respond), s1, s);
  }

  /** Replica `x` holds a committed certificate, and no other correct replica is prepared. */
  ghost predicate CommittedAlone(s: State, x: nat, k: nat, d: Digest) {
    Correct(s, x) && IsCommitted(s.replicas[x], k, d) &&
    forall j: nat :: Correct(s, j) && j != x ==> !IsPrepared(s.replicas[j], k, d)
  }

  lemma NoneElse(s: State, s': State, x: nat, d: Digest)
    requires NoneCounted(s) && Moves(s, s', {x}) && Correct(s, x)
    requires s'.replicas[x].executeNumber == |s'.replicas[x].log| == 1
    requires s'.replicas[x].log[0].prePrepare.digest == d
    ensures CommittedAlone(s', x, 1, d)
  {
    CorrectReplica(s', x);
    assert CommittedEntry(s'.replicas[x], 1);
    forall j: nat | Correct(s', j) && j != x ensures !IsPrepared(s'.replicas[j], 1, d) {
      assert Correct(s, j);
      CorrectReplica(s, j);
    }
  }

  /** In every configuration, also with all replicas correct, a committed certificate at one correct
      replica need not mean that any other correct replica is prepared. */
  lemma CommittedNarrowly(config: Config, faulty: set<nat>) returns (s: State, x: nat, d: Digest)
    requires WellConfigured(config, faulty)
    ensures s.config == config && s.faulty == faulty && Reachable(s) && CommittedAlone(s, x, 1, d)
  {
    var q := Request(0, 1, [], 0);
    BackupsOutnumber(config, faulty);
    var s1 := AllLog(config, faulty, _ => [], q);
    x :| x in Backups(config, faulty);
    d := Sha256([q]);
    s := ExecuteOnPrepares(s1, x, faulty + Backups(config, faulty), [q]);
    NoneElse(s1, s, x, d);
  }

  lemma NeverPrepares(s: State)
    requires Reachable(s) && Correct(s, 0)
    ensures forall p :: SendPrepare(p) !in s.replicas[0].toCrypto
  {
    CorrectReplica(s, 0);
    forall p ensures SendPrepare(p) !in s.replicas[0].toCrypto {
      assert SendPrepare(p) in s.replicas[0].toCrypto ==> Justified(s.replicas[0], SendPrepare(p));
    }
  }

  /** Replica `x` has counted a commit of the primary as a prepare. */
  lemma CountPrimary(s: State, x: nat, d: Digest) returns (s': State)
    requires Reachable(s) && Correct(s, 0) && Correct(s, x) && Uncounted(s.replicas[x])
    requires SendCommit(Commit(0, 1, d, 0)) in s.replicas[0].toCrypto
    ensures Moves(s, s', {x}) && 0 in Votes(s'.replicas[x].prepareQuorums, 1, d)
  {
    CorrectReplica(s, x);
    assert Deliverable(s, ToPrepare(Prepare(0, 1, d, 0)));
    s' := Deliver(s, x, ToPrepare(Prepare(0, 1, d, 0)));
  }

  /** With a correct primary, its commit can be counted as a prepare, though it never casts one. */
  lemma PrimaryCounted(config: Config, faulty: set<nat>) returns (s: State, x: nat, d: Digest)
    requires WellConfigured(config, faulty) && 0 !in faulty
    ensures s.config == config && s.faulty == faulty && Reachable(s)
    ensures Correct(s, 0) && Correct(s, x) && 0 in Votes(s.replicas[x].prepareQuorums, 1, d)
    ensures forall p :: SendPrepare(p) !in s.replicas[0].toCrypto
  {
    var q := Request(0, 1, [], 0);
    BackupsOutnumber(config, faulty);
    d := Sha256([q]);
    var s1 := AllLog(config, faulty, _ => [], q);
    x :| x in Backups(config, faulty);
    assert Correct(s1, x) && Correct(s1, 0);
    var s2 := PrimaryCommits(s1, faulty + Backups(config, faulty), q);
    s := CountPrimary(s2, x, d);
    NeverPrepares(s);
  }

  /** A correct primary given its own batch and the prepares of the others sends a commit. */
  lemma PrimaryCommits(s: State, js: set<nat>, q: Request) returns (s': State)
    requires Reachable(s) && Correct(s, 0) && NoneCounted(s) && BatchOut(s, [q])
    requires s.replicas[0].log == [] && s.replicas[0].reorder == map[]
    requires PreparesOut(s, Sha256([q]), js) && |js| >= 2 * s.config.f
    ensures Moves(s, s', {0}) && SendCommit(Commit(0, 1, Sha256([q]), 0)) in s'.replicas[0].toCrypto
  {
    var d := Sha256([q]);
    CorrectReplica(s, 0);
    var m := Deliver(s, 0, ToPrePrepare(PrePrepare(0, 1, d), [q]));
    assert forall d' :: Votes(m.replicas[0].prepareQuorums, 1, d') == {};
    PreparesOutLater(s, m, {0}, d, js, js);
    s' := TakePrepares(m, 0, d, js);
    CorrectReplica(s', 0);
    if !IsPrepared(s'.replicas[0], 1, d) {
      SubsetSize(js, Votes(s'.replicas[0].prepareQuorums, 1, d));
    }
    MovesTransitive(s, m, s', {0}, {0}, {0});
  }
}
