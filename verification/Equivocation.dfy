/** Exactly when the code guarantees agreement.

    `IsPrepared` counts a prepare naming any replica, the primary included, and does not compare
    the digest with the log entry. So a faulty primary may vote for two batches at once. This
    module builds, for every configuration in which the two halves of the correct replicas can be
    brought to a quorum that way, a run in which two correct replicas execute different batches. */
module Equivocation {
  import opened Messages
  import opened ReplicaModel
  import opened Invariants
  import opened Sets
  import opened Cluster
  import opened Agreement

  // ---------- The results ----------

  /** The code as it stands guarantees execution agreement in exactly these configurations. */
  lemma AgreementExactly(config: Config, faulty: set<nat>)
    requires WellConfigured(config, faulty)
    ensures (forall s :: Reachable(s) && s.config == config && s.faulty == faulty ==> Agrees(s))
            <==> 0 !in faulty || |faulty| + 1 < config.f
  {
    if 0 !in faulty || |faulty| + 1 < config.f {
      forall s | Reachable(s) && s.config == config && s.faulty == faulty ensures Agrees(s) {
        ExecutionAgreement(s);
      }
    } else {
      var s := Disagreement(config, faulty);
    }
  }

  /** A faulty primary with at least `f - 1` faulty replicas in all can make two correct replicas
      execute different batches at op number 1. */
  lemma Disagreement(config: Config, faulty: set<nat>) returns (s: State)
    requires WellConfigured(config, faulty) && 0 in faulty && |faulty| + 1 >= config.f
    ensures s.config == config && s.faulty == faulty && Reachable(s) && !Agrees(s)
  {
    var x, y;
    s, x, y := BothExecuted(config, faulty, _ => [], [], [Request(0, 1, [], 0)]);
    Differ(s, x, y);
  }

  // ---------- Runs that touch few replicas ----------

  /** `s'` is reached from `s` by deliveries to members of `xs` alone. */
  ghost predicate Moves(s: State, s': State, xs: set<nat>) {
    && Reachable(s) && Reachable(s') && Reaches(s, s')
    && s'.config == s.config && s'.faulty == s.faulty && |s.replicas| == |s'.replicas| == s.config.n
    && forall y: nat :: y < s.config.n && y !in xs ==> s'.replicas[y] == s.replicas[y]
  }

  lemma MovesLater(s: State, s': State, xs: set<nat>)
    requires Moves(s, s', xs)
    ensures s.config.n > 0 && Later(s, s')
  {
    ReachableInv(s);
    var es :| s' == After(s, es);
    RunInv(s, es);
  }

  lemma MovesKeep(s: State, s': State, xs: set<nat>, x: nat, d: Digest)
    requires Moves(s, s', xs) && Correct(s, x)
    ensures IsPrepared(s.replicas[x], 1, d) ==> IsPrepared(s'.replicas[x], 1, d)
    ensures IsCommitted(s.replicas[x], 1, d) ==> IsCommitted(s'.replicas[x], 1, d)
    ensures Votes(s.replicas[x].prepareQuorums, 1, d) <= Votes(s'.replicas[x].prepareQuorums, 1, d)
    ensures Votes(s.replicas[x].commitQuorums, 1, d) <= Votes(s'.replicas[x].commitQuorums, 1, d)
    ensures s.replicas[x].config == s'.replicas[x].config == s.config && s'.replicas[x].id == x
  {
    MovesLater(s, s', xs);
    CertificatesStable(s, s', x, 1, d);
    CorrectReplica(s, x);
  }

  lemma MovesSelf(s: State, xs: set<nat>)
    requires Reachable(s)
    ensures Moves(s, s, xs)
  {
    ReachableInv(s);
    ReachesSelf(s);
  }

  lemma MovesTransitive(a: State, b: State, c: State, xs: set<nat>, ys: set<nat>, zs: set<nat>)
    requires Moves(a, b, xs) && Moves(b, c, ys) && xs <= zs && ys <= zs
    ensures Moves(a, c, zs)
  {
    ReachesTransitive(a, b, c);
  }

  lemma Sizes(s: State)
    requires Reachable(s)
    ensures WellConfigured(s.config, s.faulty) && |s.replicas| == s.config.n
  {
    ReachableInv(s);
  }

  lemma CorrectReplica(s: State, x: nat)
    requires Reachable(s) && Correct(s, x)
    ensures LogInv(s.replicas[x]) && s.replicas[x].id == x && s.replicas[x].config == s.config
    ensures WellConfigured(s.config, s.faulty)
  {
    ReachableInv(s);
    assert Member(s, x);
  }

  lemma Deliver(s: State, x: nat, m: ToReplica) returns (s': State)
    requires Reachable(s) && Correct(s, x) && s.config.n > 0 && Deliverable(s, m)
    ensures Moves(s, s', {x}) && s'.replicas[x] == Poll(s.replicas[x], m)
  {
    s' := Step(s, Delivery(x, m));
    StepReaches(s, Delivery(x, m));
    StepReachable(s, Delivery(x, m));
  }

  // ---------- First, the primary tells each half its own batch ----------

  function Entry(qs: seq<Request>): LogEntry {
    LogEntry(PrePrepare(0, 1, Sha256(qs)), qs)
  }

  /** A backup that has logged `qs` and voted for it, and has heard nothing else. */
  ghost predicate Logged(r: Replica, qs: seq<Request>) {
    && r.log == [Entry(qs)] && !r.panicked && r.executeNumber == 0
    && r.prepareQuorums == map[] && r.commitQuorums == map[]
    && SendPrepare(Prepare(0, 1, Sha256(qs), r.id)) in r.toCrypto
  }

  ghost predicate Fresh(r: Replica) {
    r.log == [] && r.reorder == map[] && !r.panicked && r.executeNumber == 0 &&
    r.prepareQuorums == map[] && r.commitQuorums == map[] && r.id != 0
  }

  ghost predicate AllFresh(s: State, xs: set<nat>) {
    forall x :: x in xs ==> Correct(s, x) && Fresh(s.replicas[x])
  }

  ghost predicate AllLogged(s: State, xs: set<nat>, qs: seq<Request>) {
    forall x :: x in xs ==> Correct(s, x) && Logged(s.replicas[x], qs)
  }

  /** The pre-prepare for batch `qs` at op number 1 may be delivered. */
  ghost predicate BatchOut(s: State, qs: seq<Request>) {
    s.config.n > 0 && |s.replicas| == s.config.n && Deliverable(s, ToPrePrepare(PrePrepare(0, 1, Sha256(qs)), qs))
  }

  lemma TellOne(s: State, x: nat, qs: seq<Request>) returns (s': State)
    requires Reachable(s) && BatchOut(s, qs) && AllFresh(s, {x})
    ensures Moves(s, s', {x}) && AllLogged(s', {x}, qs) && BatchOut(s', qs)
  {
    ReachableInv(s);
    assert Correct(s, x) && Member(s, x);
    s' := Deliver(s, x, ToPrePrepare(PrePrepare(0, 1, Sha256(qs)), qs));
  }

  lemma {:induction false} TellBatch(s: State, xs: set<nat>, qs: seq<Request>) returns (s': State)
    requires Reachable(s) && BatchOut(s, qs) && AllFresh(s, xs)
    ensures Moves(s, s', xs) && AllLogged(s', xs, qs) && BatchOut(s', qs)
    decreases |xs|
  {
    if xs == {} {
      s' := s;
      MovesSelf(s, xs);
    } else {
      var x :| x in xs;
      var m := TellOne(s, x, qs);
      s' := TellBatch(m, xs - {x}, qs);
      MovesTransitive(s, m, s', {x}, xs - {x}, xs);
      assert Correct(m, x) && s'.replicas[x] == m.replicas[x];
    }
  }

  // ---------- Then every correct replica is brought to prepare both batches ----------

  /** `r` has sent a commit for every digest it is prepared for at op number 1. */
  ghost predicate Voting(r: Replica) {
    && |r.log| == 1 && !r.panicked && r.executeNumber == 0 && r.commitQuorums == map[]
    && forall d :: IsPrepared(r, 1, d) ==> SendCommit(Commit(0, 1, d, r.id)) in r.toCrypto
  }

  lemma TakePrepare(r: Replica, d: Digest, j: nat)
    requires Voting(r) && r.viewNumber == 0
    ensures var r' := Poll(r, ToPrepare(Prepare(0, 1, d, j)));
            && Voting(r') && r'.log == r.log
            && (IsPrepared(r', 1, d) || j in Votes(r'.prepareQuorums, 1, d))
  {
  }

  lemma {:induction false} TakePrepares(s: State, x: nat, d: Digest, js: set<nat>) returns (s': State)
    requires Reachable(s) && Correct(s, x) && Voting(s.replicas[x])
    requires PreparesOut(s, d, js)
    ensures Moves(s, s', {x}) && Voting(s'.replicas[x]) && s'.replicas[x].log == s.replicas[x].log
    ensures IsPrepared(s'.replicas[x], 1, d) || js <= Votes(s'.replicas[x].prepareQuorums, 1, d)
    decreases |js|
  {
    if js == {} {
      s' := s;
      MovesSelf(s, {x});
    } else {
      var j :| j in js;
      CorrectReplica(s, x);
      TakePrepare(s.replicas[x], d, j);
      var m := Deliver(s, x, ToPrepare(Prepare(0, 1, d, j)));
      PreparesOutLater(s, m, {x}, d, js, js - {j});
      s' := TakePrepares(m, x, d, js - {j});
      MovesTransitive(s, m, s', {x}, {x}, {x});
      MovesKeep(m, s', {x}, x, d);
    }
  }

  /** A prepare for `d` from each of `js` may be delivered. */
  ghost predicate PreparesOut(s: State, d: Digest, js: set<nat>) {
    s.config.n > 0 && |s.replicas| == s.config.n &&
    forall j :: j in js ==> Deliverable(s, ToPrepare(Prepare(0, 1, d, j)))
  }

  lemma PreparesOutLater(s: State, s': State, xs: set<nat>, d: Digest, js: set<nat>, js': set<nat>)
    requires Moves(s, s', xs) && PreparesOut(s, d, js) && js' <= js
    ensures PreparesOut(s', d, js')
  {
    MovesLater(s, s', xs);
  }

  ghost predicate AllVoting(s: State, xs: set<nat>) {
    forall x :: x in xs ==> Correct(s, x) && Voting(s.replicas[x])
  }

  ghost predicate AllSentCommits(s: State, xs: set<nat>, d: Digest, d': Digest) {
    forall x :: x in xs ==> Correct(s, x) && Voting(s.replicas[x]) && SentCommits(s.replicas[x], d, d')
  }

  ghost predicate SameLogs(s: State, s': State) {
    |s.replicas| == |s'.replicas| && forall i :: 0 <= i < |s.replicas| ==> s'.replicas[i].log == s.replicas[i].log
  }

  /** `r` has prepared both batches and announced it. */
  ghost predicate SentCommits(r: Replica, d: Digest, d': Digest) {
    IsPrepared(r, 1, d) && IsPrepared(r, 1, d') &&
    SendCommit(Commit(0, 1, d, r.id)) in r.toCrypto && SendCommit(Commit(0, 1, d', r.id)) in r.toCrypto
  }

  lemma PrepareBoth(s: State, x: nat, d: Digest, d': Digest, js: set<nat>, js': set<nat>) returns (s': State)
    requires Reachable(s) && Correct(s, x) && Voting(s.replicas[x])
    requires |js| >= 2 * s.config.f && |js'| >= 2 * s.config.f
    requires PreparesOut(s, d, js)
    requires PreparesOut(s, d', js')
    ensures Moves(s, s', {x}) && SameLogs(s, s')
    ensures Voting(s'.replicas[x]) && SentCommits(s'.replicas[x], d, d')
  {
    var m := TakePrepares(s, x, d, js);
    PreparesOutLater(s, m, {x}, d', js', js');
    s' := TakePrepares(m, x, d', js');
    MovesTransitive(s, m, s', {x}, {x}, {x});
    MovesKeep(s, m, {x}, x, d);
    MovesKeep(m, s', {x}, x, d);
    if !IsPrepared(m.replicas[x], 1, d) {
      SubsetSize(js, Votes(m.replicas[x].prepareQuorums, 1, d));
    }
    if !IsPrepared(s'.replicas[x], 1, d') {
      SubsetSize(js', Votes(s'.replicas[x].prepareQuorums, 1, d'));
    }
  }

  lemma VotingKept(s: State, s': State, x: nat, xs: set<nat>)
    requires AllVoting(s, xs) && Moves(s, s', {x})
    ensures AllVoting(s', xs - {x})
  {
  }

  lemma SentByAll(s: State, s': State, x: nat, xs: set<nat>, d: Digest, d': Digest)
    requires AllSentCommits(s, {x}, d, d') && Moves(s, s', xs - {x}) && AllSentCommits(s', xs - {x}, d, d')
    ensures AllSentCommits(s', xs, d, d')
  {
  }

  lemma {:induction false} AllPrepareBoth(s: State, xs: set<nat>, d: Digest, d': Digest, js: set<nat>, js': set<nat>)
    returns (s': State)
    requires Reachable(s) && AllVoting(s, xs)
    requires |js| >= 2 * s.config.f && |js'| >= 2 * s.config.f
    requires PreparesOut(s, d, js) && PreparesOut(s, d', js')
    ensures Moves(s, s', xs) && SameLogs(s, s') && AllSentCommits(s', xs, d, d')
    decreases |xs|
  {
    if xs == {} {
      s' := s;
      MovesSelf(s, xs);
    } else {
      var x :| x in xs;
      var m := PrepareBoth(s, x, d, d', js, js');
      PreparesOutLater(s, m, {x}, d, js, js);
      PreparesOutLater(s, m, {x}, d', js', js');
      VotingKept(s, m, x, xs);
      s' := AllPrepareBoth(m, xs - {x}, d, d', js, js');
      MovesTransitive(s, m, s', {x}, xs - {x}, xs);
      SentByAll(m, s', x, xs, d, d');
    }
  }

  // ---------- Last, one replica of each half collects the commits for its own batch ----------

  ghost predicate Committing(r: Replica) {
    |r.log| == 1 && !r.panicked && r.id != 0 && r.executeNumber <= 1 &&
    IsPrepared(r, 1, r.log[0].prePrepare.digest) &&
    (CommittedEntry(r, 1) ==> r.executeNumber == 1)
  }

  /** A commit for `d` from each of `js` may be delivered. */
  ghost predicate CommitsOut(s: State, d: Digest, js: set<nat>) {
    s.config.n > 0 && |s.replicas| == s.config.n &&
    forall j :: j in js ==> Deliverable(s, ToCommit(Commit(0, 1, d, j)))
  }

  lemma CommitsOutLater(s: State, s': State, xs: set<nat>, d: Digest, js: set<nat>, js': set<nat>)
    requires Moves(s, s', xs) && CommitsOut(s, d, js) && js' <= js
    ensures CommitsOut(s', d, js')
  {
    MovesLater(s, s', xs);
  }

  /** Executing the only entry of the log. */
  lemma ExecuteOnly(r: Replica)
    requires LogInv(r) && |r.log| == 1 && r.executeNumber == 0 && CommittedEntry(r, 1)
    ensures Execute(r).executeNumber == 1 && SameButExecution(r, Execute(r))
  {
    ExecuteFrame(r);
    ExecuteIsMaximal(r);
  }

  lemma TakeCommit(r: Replica, j: nat)
    requires Committing(r) && LogInv(r)
    ensures var d := r.log[0].prePrepare.digest;
            var r' := Poll(r, ToCommit(Commit(0, 1, d, j)));
            && Committing(r') && r'.log == r.log
            && (IsCommitted(r', 1, d) || j in Votes(r'.commitQuorums, 1, d))
  {
    var d := r.log[0].prePrepare.digest;
    PrimaryIsZero(r);
    if !CommittedEntry(r, 1) {
      assert r.executeNumber == 0;
      var r1 := CountCommit(r, Commit(0, 1, d, j));
      CountCommitKeeps(r, Commit(0, 1, d, j));
      if CommittedEntry(r1, 1) {
        ExecuteOnly(r1);
      }
    }
  }

  lemma {:induction false} TakeCommits(s: State, x: nat, js: set<nat>) returns (s': State)
    requires Reachable(s) && Correct(s, x) && Committing(s.replicas[x])
    requires CommitsOut(s, s.replicas[x].log[0].prePrepare.digest, js)
    ensures Moves(s, s', {x}) && Committing(s'.replicas[x]) && s'.replicas[x].log == s.replicas[x].log
    ensures var d := s.replicas[x].log[0].prePrepare.digest;
            IsCommitted(s'.replicas[x], 1, d) || js <= Votes(s'.replicas[x].commitQuorums, 1, d)
    decreases |js|
  {
    if js == {} {
      s' := s;
      MovesSelf(s, {x});
    } else {
      var j :| j in js;
      var d := s.replicas[x].log[0].prePrepare.digest;
      CorrectReplica(s, x);
      TakeCommit(s.replicas[x], j);
      var m := Deliver(s, x, ToCommit(Commit(0, 1, d, j)));
      CommitsOutLater(s, m, {x}, d, js, js - {j});
      s' := TakeCommits(m, x, js - {j});
      MovesTransitive(s, m, s', {x}, {x}, {x});
      MovesKeep(m, s', {x}, x, d);
    }
  }

  /** A replica that is prepared for its own batch executes it once the commits arrive. */
  lemma ExecuteOwn(s: State, x: nat, js: set<nat>) returns (s': State)
    requires Reachable(s) && Correct(s, x) && Committing(s.replicas[x]) && |js| > 2 * s.config.f
    requires CommitsOut(s, s.replicas[x].log[0].prePrepare.digest, js)
    ensures Moves(s, s', {x}) && s'.replicas[x].log == s.replicas[x].log && s'.replicas[x].executeNumber == 1
  {
    s' := TakeCommits(s, x, js);
    var d := s.replicas[x].log[0].prePrepare.digest;
    if !IsCommitted(s'.replicas[x], 1, d) {
      SubsetSize(js, Votes(s'.replicas[x].commitQuorums, 1, d));
    }
    CorrectReplica(s, x);
    CorrectReplica(s', x);
    assert CommittedEntry(s'.replicas[x], 1);
  }

  // ---------- The run ----------

  lemma {:induction false} SubsetOfSize(c: set<nat>, m: nat) returns (a: set<nat>)
    requires m <= |c|
    ensures a <= c && |a| == m
    decreases m
  {
    if m == 0 {
      a := {};
    } else {
      var x :| x in c;
      a := SubsetOfSize(c - {x}, m - 1);
      a := a + {x};
    }
  }

  lemma FreshStart(config: Config, faulty: set<nat>, respond: seq<Call> -> Bytes)
    requires WellConfigured(config, faulty)
    ensures Reachable(Start(config, faulty, respond))
    ensures AllFresh(Start(config, faulty, respond), Upto(config.n) - faulty - {0})
  {
    ReachesSelf(Start(config, faulty, respond));
    assert Initial(Start(config, faulty, respond));
  }

  lemma LoggedIsVoting(s: State, xs: set<nat>, qs: seq<Request>)
    requires Reachable(s) && AllLogged(s, xs, qs)
    ensures AllVoting(s, xs) && PreparesOut(s, Sha256(qs), s.faulty + xs)
  {
    Sizes(s);
    forall x | x in xs
      ensures Voting(s.replicas[x]) && Deliverable(s, ToPrepare(Prepare(0, 1, Sha256(qs), x)))
    {
      CorrectReplica(s, x);
      assert forall d :: Votes(s.replicas[x].prepareQuorums, 1, d) == {};
    }
  }

  /** The halves have logged `qs` and `qs'`. */
  ghost predicate Halves(s: State, half: set<nat>, half': set<nat>, qs: seq<Request>, qs': seq<Request>) {
    (forall x :: x in half ==> Correct(s, x) && s.replicas[x].log == [Entry(qs)]) &&
    (forall x :: x in half' ==> Correct(s, x) && s.replicas[x].log == [Entry(qs')])
  }

  lemma HalvesKept(s: State, s': State, half: set<nat>, half': set<nat>, qs: seq<Request>, qs': seq<Request>)
    requires Halves(s, half, half', qs, qs') && SameLogs(s, s') && s'.config == s.config && s'.faulty == s.faulty
    ensures Halves(s', half, half', qs, qs')
  {
  }

  lemma BothLogged(config: Config, faulty: set<nat>, respond: seq<Call> -> Bytes, half: set<nat>, half': set<nat>,
                   qs: seq<Request>, qs': seq<Request>) returns (s: State)
    requires WellConfigured(config, faulty) && 0 in faulty
    requires half !! half' && half + half' == Upto(config.n) - faulty
    ensures Moves(Start(config, faulty, respond), s, half + half')
    ensures Halves(s, half, half', qs, qs') && AllVoting(s, half + half')
    ensures PreparesOut(s, Sha256(qs), faulty + half) && PreparesOut(s, Sha256(qs'), faulty + half')
  {
    var s0 := Start(config, faulty, respond);
    FreshStart(config, faulty, respond);
    assert AllFresh(s0, half) && AllFresh(s0, half');
    assert 0 % config.n == 0;
    assert BatchOut(s0, qs);
    var s1 := TellBatch(s0, half, qs);
    s := TellBatch(s1, half', qs');
    MovesTransitive(s0, s1, s, half, half', half + half');
    LoggedIsVoting(s, half, qs);
    LoggedIsVoting(s, half', qs');
  }

  lemma BothPrepared(config: Config, faulty: set<nat>, respond: seq<Call> -> Bytes, half: set<nat>, half': set<nat>,
                     qs: seq<Request>, qs': seq<Request>) returns (s: State)
    requires WellConfigured(config, faulty) && 0 in faulty
    requires half !! half' && half + half' == Upto(config.n) - faulty
    requires |faulty| + |half| >= 2 * config.f && |faulty| + |half'| >= 2 * config.f
    ensures Moves(Start(config, faulty, respond), s, half + half')
    ensures Halves(s, half, half', qs, qs') && AllSentCommits(s, half + half', Sha256(qs), Sha256(qs'))
  {
    var m := BothLogged(config, faulty, respond, half, half', qs, qs');
    assert |faulty + half| == |faulty| + |half|;
    assert |faulty + half'| == |faulty| + |half'|;
    s := AllPrepareBoth(m, half + half', Sha256(qs), Sha256(qs'), faulty + half, faulty + half');
    MovesTransitive(Start(config, faulty, respond), m, s, half + half', half + half', half + half');
    HalvesKept(m, s, half, half', qs, qs');
  }

  lemma CommitsDeliverable(s: State, xs: set<nat>, d: Digest, d': Digest)
    requires Reachable(s) && AllSentCommits(s, xs, d, d')
    ensures CommitsOut(s, d, xs) && CommitsOut(s, d', xs)
  {
    Sizes(s);
    forall j | j in xs
      ensures Deliverable(s, ToCommit(Commit(0, 1, d, j))) && Deliverable(s, ToCommit(Commit(0, 1, d', j)))
    {
      CorrectReplica(s, j);
    }
  }

  lemma ReadyToCommit(s: State, x: nat, d: Digest, d': Digest)
    requires Reachable(s) && 0 in s.faulty && AllSentCommits(s, {x}, d, d')
    requires s.replicas[x].log[0].prePrepare.digest in {d, d'}
    ensures Committing(s.replicas[x])
  {
    assert Correct(s, x);
    CorrectReplica(s, x);
    assert Votes(s.replicas[x].commitQuorums, 1, s.replicas[x].log[0].prePrepare.digest) == {};
  }

  /** Two replicas that logged different batches, both prepared everywhere, execute them. */
  lemma BothExecute(s: State, xs: set<nat>, x: nat, y: nat, qs: seq<Request>, qs': seq<Request>) returns (s': State)
    requires Reachable(s) && 0 in s.faulty && |xs| > 2 * s.config.f
    requires AllSentCommits(s, xs, Sha256(qs), Sha256(qs')) && x in xs && y in xs && x != y
    requires s.replicas[x].log == [Entry(qs)] && s.replicas[y].log == [Entry(qs')]
    ensures Moves(s, s', {x, y})
    ensures s'.replicas[x].log == [Entry(qs)] && s'.replicas[x].executeNumber == 1
    ensures s'.replicas[y].log == [Entry(qs')] && s'.replicas[y].executeNumber == 1
  {
    CommitsDeliverable(s, xs, Sha256(qs), Sha256(qs'));
    ReadyToCommit(s, x, Sha256(qs), Sha256(qs'));
    ReadyToCommit(s, y, Sha256(qs), Sha256(qs'));
    var m := ExecuteOwn(s, x, xs);
    CommitsOutLater(s, m, {x}, Sha256(qs'), xs, xs);
    s' := ExecuteOwn(m, y, xs);
    MovesTransitive(s, m, s', {x}, {y}, {x, y});
  }

  lemma Halve(config: Config, faulty: set<nat>) returns (half: set<nat>, half': set<nat>)
    requires WellConfigured(config, faulty) && |faulty| + 1 >= config.f
    ensures half !! half' && half + half' == Upto(config.n) - faulty && |half + half'| > 2 * config.f
    ensures |faulty| + |half| >= 2 * config.f && |faulty| + |half'| >= 2 * config.f
    ensures half != {} && half' != {}
  {
    var correct := Upto(config.n) - faulty;
    assert Upto(config.n) == correct + faulty;
    half := SubsetOfSize(correct, 2 * config.f - |faulty|);
    half' := correct - half;
    assert correct == half + half';
  }

  /** A run in which one correct replica executes `qs` and another `qs'` at op number 1. */
  lemma BothExecuted(config: Config, faulty: set<nat>, respond: seq<Call> -> Bytes, qs: seq<Request>, qs': seq<Request>)
    returns (s: State, x: nat, y: nat)
    requires WellConfigured(config, faulty) && 0 in faulty && |faulty| + 1 >= config.f
    ensures s.config == config && s.faulty == faulty && Reachable(s) && Reaches(Start(config, faulty, respond), s)
    ensures Correct(s, x) && s.replicas[x].log == [Entry(qs)] && s.replicas[x].executeNumber == 1
    ensures Correct(s, y) && s.replicas[y].log == [Entry(qs')] && s.replicas[y].executeNumber == 1
  {
    var half, half' := Halve(config, faulty);
    var s1 := BothPrepared(config, faulty, respond, half, half', qs, qs');
    x :| x in half;
    y :| y in half';
    s := BothExecute(s1, half + half', x, y, qs, qs');
    ReachesTransitive(Start(config, faulty, respond), s1, s);
  }

  lemma Differ(s: State, x: nat, y: nat)
    requires Correct(s, x) && Correct(s, y)
    requires |s.replicas[x].log| == |s.replicas[y].log| == 1 && s.replicas[x].log[0] != s.replicas[y].log[0]
    requires s.replicas[x].executeNumber == s.replicas[y].executeNumber == 1
    ensures !Agrees(s)
  {
  }
}
