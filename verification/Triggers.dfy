/** What each message must set off at a replica. The invariants elsewhere bound what a replica does;
    here are the votes it must have counted, the messages it must have sent and the execution that a
    completed certificate must have started. */
module Triggers {
  import opened Messages
  import opened ReplicaModel
  import opened Invariants
  import opened Sets
  import opened Service
  import opened ExecutionModel
  import opened Cluster
  import opened Agreement
  import opened ClusterRuns

  // ---------- A backup votes for whatever it logs ----------

  ghost predicate VotedFor(r: Replica, k: nat)
    requires HasEntry(r.log, k)
  {
    SendPrepare(Prepare(0, k, r.log[k - 1].prePrepare.digest, r.id)) in r.toCrypto
  }

  ghost predicate VotedForAll(r: Replica) {
    r.id != 0 ==> forall k: nat :: HasEntry(r.log, k) ==> VotedFor(r, k)
  }

  lemma VotedKept(r: Replica, r': Replica)
    requires VotedForAll(r) && r'.id == r.id && r'.log == r.log && r.toCrypto <= r'.toCrypto
    ensures VotedForAll(r')
  {
    assert forall k: nat :: HasEntry(r.log, k) && VotedFor(r, k) ==> VotedFor(r', k);
  }

  lemma HandlePrePrepareVotes(r: Replica, e: LogEntry)
    requires VotedForAll(r) && r.viewNumber == 0 && r.id < r.config.n && e.prePrepare.opNumber == NextEntry(r)
    ensures VotedForAll(HandlePrePrepare(r, e))
  {
    PrimaryIsZero(r);
    var r' := HandlePrePrepare(r, e);
    assert forall k: nat :: HasEntry(r.log, k) && VotedFor(r, k) ==> VotedFor(r', k);
  }

  lemma {:induction false} DrainVotes(r: Replica)
    requires Draining(r) && VotedForAll(r)
    ensures VotedForAll(Drain(r))
    decreases |r.reorder|
  {
    if CanDrain(r) {
      var k := NextEntry(r);
      HandlePrePrepareVotes(r.(reorder := r.reorder - {k}), r.reorder[k]);
      DrainOneKeeps(r);
      DrainVotes(DrainOne(r));
    }
  }

  lemma PollVotes(r: Replica, m: ToReplica)
    requires LogInv(r) && Hashed(m) && VotedForAll(r)
    ensures VotedForAll(Poll(r, m))
  {
    PollKeeps(r, m);
    if m.ToPrePrepare? && !r.panicked && m.prePrepare.opNumber == NextEntry(r) {
      var e := LogEntry(m.prePrepare, m.requests);
      HandlePrePrepareVotes(r, e);
      HandlePrePrepareKeeps(r, e);
      DrainVotes(HandlePrePrepare(r, e));
    } else if m.ToPrePrepare? {
      VotedKept(r, Poll(r, m));
    } else {
      PollLogFrame(r, m);
      VotedKept(r, Poll(r, m));
    }
  }

  lemma {:induction false} ReachedVotes(r: Replica, ms: seq<ToReplica>)
    requires Reached(r, ms)
    ensures VotedForAll(r)
    decreases |ms|
  {
    if ms != [] {
      var r0 := ReachedBefore(r, ms);
      ReachedVotes(r0, ms[..|ms| - 1]);
      ReachedKeeps(r0, ms[..|ms| - 1]);
      PollVotes(r0, ms[|ms| - 1]);
    }
  }

  /** Over any run the prepares a replica has sent are exactly those for its own log, entry by entry
      and however the entries came into it, and the primary has sent none. */
  lemma PreparesAreLog(r: Replica, ms: seq<ToReplica>, k: nat, d: Digest)
    requires Reached(r, ms)
    ensures SendPrepare(Prepare(0, k, d, r.id)) in r.toCrypto <==> r.id != 0 && LoggedAs(r, k, d)
  {
    ReachedVotes(r, ms);
    ReachedKeeps(r, ms);
    if SendPrepare(Prepare(0, k, d, r.id)) in r.toCrypto {
      assert Justified(r, SendPrepare(Prepare(0, k, d, r.id)));
    }
  }

  // ---------- Certificates are the votes received ----------

  /** The ids that voted for `d` at op number `k` in the prepares of `ms`. */
  ghost function Preparers(ms: seq<ToReplica>, k: nat, d: Digest): set<nat> {
    set m | m in ms && m.ToPrepare? && m.prepare == Prepare(0, k, d, m.prepare.replicaId) :: m.prepare.replicaId
  }

  ghost function Committers(ms: seq<ToReplica>, k: nat, d: Digest): set<nat> {
    set m | m in ms && m.ToCommit? && m.commit == Commit(0, k, d, m.commit.replicaId) :: m.commit.replicaId
  }

  /** The prepares counted are those received, up to the point at which there are enough. */
  ghost predicate PreparesCounted(r: Replica, ms: seq<ToReplica>) {
    forall k, d ::
      Votes(r.prepareQuorums, k, d) <= Preparers(ms, k, d) &&
      (Votes(r.prepareQuorums, k, d) == Preparers(ms, k, d) || IsPrepared(r, k, d))
  }

  ghost predicate CommitsCounted(r: Replica, ms: seq<ToReplica>) {
    forall k, d ::
      Votes(r.commitQuorums, k, d) <= Committers(ms, k, d) &&
      (Votes(r.commitQuorums, k, d) == Committers(ms, k, d) || IsCommitted(r, k, d))
  }

  lemma PreparersNext(ms: seq<ToReplica>, m: ToReplica, k: nat, d: Digest)
    ensures Preparers(ms + [m], k, d) ==
            Preparers(ms, k, d) +
            if m.ToPrepare? && m.prepare == Prepare(0, k, d, m.prepare.replicaId) then {m.prepare.replicaId} else {}
  {
  }

  lemma CommittersNext(ms: seq<ToReplica>, m: ToReplica, k: nat, d: Digest)
    ensures Committers(ms + [m], k, d) ==
            Committers(ms, k, d) +
            if m.ToCommit? && m.commit == Commit(0, k, d, m.commit.replicaId) then {m.commit.replicaId} else {}
  {
  }

  lemma VotesAdded(quorums: Quorums, k: nat, d: Digest, id: nat, k': nat, d': Digest)
    ensures Votes(AddVote(quorums, k, d, id), k', d') ==
            Votes(quorums, k', d') + if (k, d) == (k', d') then {id} else {}
  {
  }

  lemma HandlePrepareCounts(r: Replica, p: Prepare)
    ensures HandlePrepare(r, p).prepareQuorums ==
            if p.viewNumber == r.viewNumber && !IsPrepared(r, p.opNumber, p.digest)
            then AddVote(r.prepareQuorums, p.opNumber, p.digest, p.replicaId) else r.prepareQuorums
  {
  }

  lemma HandleCommitCounts(r: Replica, c: Commit)
    ensures HandleCommit(r, c).commitQuorums ==
            if c.viewNumber == r.viewNumber && !IsCommitted(r, c.opNumber, c.digest)
            then AddVote(r.commitQuorums, c.opNumber, c.digest, c.replicaId) else r.commitQuorums
  {
    AdvanceFrame(CountCommit(r, c));
  }

  /** What taking `m` does to the prepares counted for one digest. */
  lemma PrepareVotes(r: Replica, m: ToReplica, k: nat, d: Digest)
    requires LogInv(r) && !r.panicked
    ensures Votes(Poll(r, m).prepareQuorums, k, d) ==
            Votes(r.prepareQuorums, k, d) +
            if m.ToPrepare? && m.prepare == Prepare(0, k, d, m.prepare.replicaId) && !IsPrepared(r, k, d)
            then {m.prepare.replicaId} else {}
  {
    if m.ToPrepare? {
      HandlePrepareCounts(r, m.prepare);
      VotesAdded(r.prepareQuorums, m.prepare.opNumber, m.prepare.digest, m.prepare.replicaId, k, d);
    } else {
      PollPrepareQuorums(r, m);
    }
  }

  lemma CommitVotes(r: Replica, m: ToReplica, k: nat, d: Digest)
    requires LogInv(r) && !r.panicked
    ensures Votes(Poll(r, m).commitQuorums, k, d) ==
            Votes(r.commitQuorums, k, d) +
            if m.ToCommit? && m.commit == Commit(0, k, d, m.commit.replicaId) && !IsCommitted(r, k, d)
            then {m.commit.replicaId} else {}
  {
    if m.ToCommit? {
      HandleCommitCounts(r, m.commit);
      VotesAdded(r.commitQuorums, m.commit.opNumber, m.commit.digest, m.commit.replicaId, k, d);
    } else {
      PollCommitQuorums(r, m);
    }
  }

  lemma PollCountsPrepares(r: Replica, m: ToReplica, ms: seq<ToReplica>)
    requires LogInv(r) && Hashed(m) && !r.panicked && PreparesCounted(r, ms)
    ensures PreparesCounted(Poll(r, m), ms + [m])
  {
    var r' := Poll(r, m);
    PollKeeps(r, m);
    forall k: nat, d
      ensures Votes(r'.prepareQuorums, k, d) <= Preparers(ms + [m], k, d) &&
              (Votes(r'.prepareQuorums, k, d) == Preparers(ms + [m], k, d) || IsPrepared(r', k, d))
    {
      PrepareVotes(r, m, k, d);
      PreparersNext(ms, m, k, d);
      if IsPrepared(r, k, d) {
        PreparedStable(r, r', k, d);
      }
    }
  }

  lemma PollCountsCommits(r: Replica, m: ToReplica, ms: seq<ToReplica>)
    requires LogInv(r) && Hashed(m) && !r.panicked && CommitsCounted(r, ms)
    ensures CommitsCounted(Poll(r, m), ms + [m])
  {
    var r' := Poll(r, m);
    PollKeeps(r, m);
    forall k: nat, d
      ensures Votes(r'.commitQuorums, k, d) <= Committers(ms + [m], k, d) &&
              (Votes(r'.commitQuorums, k, d) == Committers(ms + [m], k, d) || IsCommitted(r', k, d))
    {
      CommitVotes(r, m, k, d);
      CommittersNext(ms, m, k, d);
      if IsCommitted(r, k, d) {
        CommittedStable(r, r', k, d);
      }
    }
  }

  lemma {:induction false} ReachedCounted(r: Replica, ms: seq<ToReplica>)
    requires Reached(r, ms) && !r.panicked
    ensures PreparesCounted(r, ms) && CommitsCounted(r, ms)
    decreases |ms|
  {
    if ms != [] {
      var r0 := ReachedBefore(r, ms);
      var init, m := ms[..|ms| - 1], ms[|ms| - 1];
      assert ms == init + [m];
      ReachedCounted(r0, init);
      ReachedKeeps(r0, init);
      PollCountsPrepares(r0, m, init);
      PollCountsCommits(r0, m, init);
    }
  }

  /** A replica is prepared exactly when it has the entry and has received prepares for the digest
      from `2f` ids, in any order and whenever the entry came. */
  lemma PreparedExactly(r: Replica, ms: seq<ToReplica>, k: nat, d: Digest)
    requires Reached(r, ms) && !r.panicked
    ensures IsPrepared(r, k, d) <==> HasEntry(r.log, k) && |Preparers(ms, k, d)| >= 2 * r.config.f
  {
    ReachedCounted(r, ms);
    SubsetSize(Votes(r.prepareQuorums, k, d), Preparers(ms, k, d));
  }

  /** And committed exactly when it has received commits from more than `2f` ids as well. */
  lemma CommittedExactly(r: Replica, ms: seq<ToReplica>, k: nat, d: Digest)
    requires Reached(r, ms) && !r.panicked
    ensures IsCommitted(r, k, d) <==>
            HasEntry(r.log, k) && |Preparers(ms, k, d)| >= 2 * r.config.f && |Committers(ms, k, d)| > 2 * r.config.f
  {
    PreparedExactly(r, ms, k, d);
    ReachedCounted(r, ms);
    SubsetSize(Votes(r.commitQuorums, k, d), Committers(ms, k, d));
  }

  // ---------- What completing a certificate sets off ----------

  /** `r'` has sent a commit since `r` exactly if the prepare `p` completed a certificate, and nothing else. */
  ghost predicate PrepareSetsOff(r: Replica, p: Prepare, r': Replica) {
    r'.toCrypto == r.toCrypto +
      if !IsPrepared(r, p.opNumber, p.digest) && IsPrepared(r', p.opNumber, p.digest)
      then [SendCommit(Commit(0, p.opNumber, p.digest, r.id))] else []
  }

  /** If the commit `c` completed a certificate, `r'` has executed as far as it can, and if it is the
      primary it has sent all that waited in one batch, window or not; otherwise it has done neither. */
  ghost predicate CommitSetsOff(r: Replica, c: Commit, r': Replica) {
    if !IsCommitted(r, c.opNumber, c.digest) && IsCommitted(r', c.opNumber, c.digest) then
      !CommittedEntry(r', r'.executeNumber + 1) && (r.id == 0 ==> r'.requests == []) &&
      r'.opNumber == r.opNumber + if r.id == 0 && r.requests != [] then 1 else 0
    else
      r'.executeNumber == r.executeNumber && r'.opNumber == r.opNumber &&
      r'.toCrypto == r.toCrypto && r'.requests == r.requests
  }

  lemma CompletedPrepareCommits(r: Replica, p: Prepare)
    requires LogInv(r) && !r.panicked
    ensures PrepareSetsOff(r, p, Poll(r, ToPrepare(p)))
  {
  }

  lemma AdvanceExecutes(r: Replica)
    requires LogInv(r)
    ensures var r' := Advance(r);
            && !CommittedEntry(r', r'.executeNumber + 1) && (r.id == 0 ==> r'.requests == [])
            && r'.opNumber == r.opNumber + if r.id == 0 && r.requests != [] then 1 else 0
  {
    ExecuteIsMaximal(r);
    ExecuteFrame(r);
    PrimaryIsZero(r);
  }

  lemma AdvanceSameCertificates(r: Replica, k: nat, d: Digest)
    ensures IsCommitted(Advance(r), k, d) <==> IsCommitted(r, k, d)
  {
    AdvanceFrame(r);
    ExecuteFrame(r);
  }

  lemma CompletedCommitExecutes(r: Replica, c: Commit)
    requires LogInv(r) && !r.panicked
    ensures CommitSetsOff(r, c, Poll(r, ToCommit(c)))
  {
    CountCommitKeeps(r, c);
    AdvanceExecutes(CountCommit(r, c));
    AdvanceSameCertificates(CountCommit(r, c), c.opNumber, c.digest);
  }

  /** The same of every delivery in every reachable state of a cluster. */
  lemma DeliverySetsOff(s: State, e: Delivery)
    requires Reachable(s) && CanStep(s, e) && !s.replicas[e.to].panicked
    ensures var r, r' := s.replicas[e.to], Step(s, e).replicas[e.to];
            && (e.message.ToPrepare? ==> PrepareSetsOff(r, e.message.prepare, r'))
            && (e.message.ToCommit? ==> CommitSetsOff(r, e.message.commit, r'))
  {
    ReachableReplica(s, e.to);
    if e.message.ToPrepare? {
      CompletedPrepareCommits(s.replicas[e.to], e.message.prepare);
    } else if e.message.ToCommit? {
      CompletedCommitExecutes(s.replicas[e.to], e.message.commit);
    }
  }

  // ---------- Requests ----------

  lemma TableServes(r: Replica, q: Request)
    requires FoldInv(r)
    ensures Answered(r.clientTable, q) <==> Served(ServiceOf(r), q)
    ensures Answered(r.clientTable, q) ==>
              r.clientTable[q.clientId] == ReplyFor(r, ServiceOf(r).last[q.clientId])
  {
  }

  /** The next batch, of everything that waits and `q`. */
  function Closed(r: Replica, q: Request): Replica {
    r.(opNumber := r.opNumber + 1, requests := [],
       toCrypto := r.toCrypto + [SendPrePrepare(0, r.opNumber + 1, r.requests + [q])])
  }

  /** What a request does, by what the replica has executed: one older than its client's latest is
      ignored; the latest is answered once more, to the address in the request. */
  lemma RepeatOutcome(r: Replica, ms: seq<ToReplica>, q: Request)
    requires Reached(r, ms) && !r.panicked
    ensures r.executeNumber <= |r.log|
    ensures var s, r' := ServiceOf(r), Poll(r, ToRequest(q));
            Served(s, q) ==>
              r' == if s.last[q.clientId].request.requestNumber > q.requestNumber then r
                    else Send(r, SendReply(q.addr, q.clientId, ReplyFor(r, s.last[q.clientId])))
  {
    ReachedFolds(r, ms);
    TableServes(r, q);
  }

  lemma FreshOutcome(r: Replica, q: Request)
    requires r.viewNumber == 0 && r.id < r.config.n && !r.panicked && !Answered(r.clientTable, q)
    ensures Poll(r, ToRequest(q)) ==
            if r.id != 0 then r.(panicked := true)
            else if r.opNumber < r.executeNumber + 6 then Closed(r, q)
            else r.(requests := r.requests + [q])
  {
    PrimaryIsZero(r);
  }

  /** One that is new is queued by the primary, which sends the queue if fewer than six batches are
      ahead of execution, and stops a backup. */
  lemma NewOutcome(r: Replica, ms: seq<ToReplica>, q: Request)
    requires Reached(r, ms) && !r.panicked
    ensures r.executeNumber <= |r.log|
    ensures !Served(ServiceOf(r), q) ==>
              Poll(r, ToRequest(q)) ==
                if r.id != 0 then r.(panicked := true)
                else if r.opNumber < r.executeNumber + 6 then Closed(r, q)
                else r.(requests := r.requests + [q])
  {
    ReachedFolds(r, ms);
    ReachedKeeps(r, ms);
    TableServes(r, q);
    if !Answered(r.clientTable, q) {
      FreshOutcome(r, q);
    }
  }
}
