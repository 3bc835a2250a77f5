/** What the quorums guarantee in every reachable state, whatever the faulty replicas sign. */
module Agreement {
  import opened Messages
  import opened ReplicaModel
  import opened Invariants
  import opened Cluster
  import opened Sets

  ghost predicate Correct(s: State, i: nat) {
    |s.replicas| == s.config.n && i < s.config.n && i !in s.faulty
  }

  /** No correct replica has counted a prepare that names one of `xs` as its voter. */
  ghost predicate NoVoteFrom(s: State, xs: set<nat>) {
    forall i: nat, k, d :: Correct(s, i) ==> Votes(s.replicas[i].prepareQuorums, k, d) !! xs
  }

  /** When agreement is guaranteed: the primary is correct, or it may equivocate but has cast no
      prepare vote, or the faulty replicas are at least two fewer than the configured bound. */
  ghost predicate Guarded(s: State) {
    0 !in s.faulty || NoVoteFrom(s, {0}) || |s.faulty| + 1 < s.config.f
  }

  // ---------- Votes ----------

  ghost predicate LoggedAs(r: Replica, k: nat, d: Digest) {
    HasEntry(r.log, k) && r.log[k - 1].prePrepare.digest == d
  }

  /** What a counted vote says, of either kind: a correct replica named by it is a backup whose own
      entry has that digest, or holds a prepared certificate for it. */
  lemma VoteMeansEntry(s: State, i: nat, k: nat, d: Digest, j: nat)
    requires Reachable(s) && Correct(s, i) && Correct(s, j)
    requires j in Votes(s.replicas[i].prepareQuorums, k, d) || j in Votes(s.replicas[i].commitQuorums, k, d)
    ensures (j != 0 && LoggedAs(s.replicas[j], k, d)) || IsPrepared(s.replicas[j], k, d)
  {
    ReachableInv(s);
    assert Member(s, i) && Authentic(s, s.replicas[i]) && Member(s, j);
    assert Voted(s, k, d, j);
    SignedMeans(s.replicas[j], k, d, j);
  }

  lemma SignedMeans(r: Replica, k: nat, d: Digest, j: nat)
    requires LogInv(r) && VoteSigned(r.toCrypto, 0, k, d, j) && r.id == j
    ensures (j != 0 && LoggedAs(r, k, d)) || IsPrepared(r, k, d)
  {
    if SendPrepare(Prepare(0, k, d, j)) in r.toCrypto {
      assert Justified(r, SendPrepare(Prepare(0, k, d, j)));
    } else {
      assert Justified(r, SendCommit(Commit(0, k, d, j)));
    }
  }

  /** The replicas that may stand behind digest `d` at op number `k`: the faulty ones, and the
      correct backups whose own entry it is. */
  ghost function Backers(s: State, k: nat, d: Digest): (ids: set<nat>)
    requires |s.replicas| == s.config.n
  {
    set j: nat | j < s.config.n && (j in s.faulty || (j != 0 && LoggedAs(s.replicas[j], k, d)))
  }

  /** Outside `xs`, the votes of every correct replica come from backers, or enough of these exist. */
  ghost predicate Backed(s: State, xs: set<nat>)
    requires |s.replicas| == s.config.n
  {
    forall i: nat, k, d :: Correct(s, i) ==>
      Votes(s.replicas[i].prepareQuorums, k, d) <= Backers(s, k, d) - xs || |Backers(s, k, d) - xs| >= 2 * s.config.f
  }

  lemma BackersGrow(s: State, s': State, k: nat, d: Digest, xs: set<nat>)
    requires Later(s, s')
    ensures Backers(s, k, d) - xs <= Backers(s', k, d) - xs && |Backers(s, k, d) - xs| <= |Backers(s', k, d) - xs|
  {
    SubsetSize(Backers(s, k, d) - xs, Backers(s', k, d) - xs);
  }

  lemma PreparedIsBacked(s: State, xs: set<nat>, i: nat, k: nat, d: Digest)
    requires Inv(s) && Backed(s, xs) && Correct(s, i) && IsPrepared(s.replicas[i], k, d)
    ensures |Backers(s, k, d) - xs| >= 2 * s.config.f
  {
    assert Member(s, i);
    if Votes(s.replicas[i].prepareQuorums, k, d) <= Backers(s, k, d) - xs {
      SubsetSize(Votes(s.replicas[i].prepareQuorums, k, d), Backers(s, k, d) - xs);
    }
  }

  /** A vote that may be delivered comes from a backer, unless enough of these exist: a replica that
      signed a commit was prepared, and so had their votes. */
  lemma VoterIsBacker(s: State, xs: set<nat>, k: nat, d: Digest, j: nat)
    requires Inv(s) && Backed(s, xs) && Voted(s, k, d, j)
    ensures j in Backers(s, k, d) || |Backers(s, k, d) - xs| >= 2 * s.config.f
  {
    if j !in s.faulty {
      assert Correct(s, j) && Member(s, j);
      SignedMeans(s.replicas[j], k, d, j);
      if IsPrepared(s.replicas[j], k, d) {
        PreparedIsBacked(s, xs, j, k, d);
      }
    }
  }

  lemma StepBacked(s: State, e: Delivery, xs: set<nat>)
    requires Inv(s) && Backed(s, xs) && NoVoteFrom(Step(s, e), xs)
    ensures Inv(Step(s, e)) && Backed(Step(s, e), xs)
  {
    var s' := Step(s, e);
    StepInv(s, e);
    forall i: nat, k, d | Correct(s', i)
      ensures Votes(s'.replicas[i].prepareQuorums, k, d) <= Backers(s', k, d) - xs ||
              |Backers(s', k, d) - xs| >= 2 * s.config.f
    {
      StepVotes(s, e, xs, i, k, d);
      BackersGrow(s, s', k, d, xs);
    }
  }

  lemma StepVotes(s: State, e: Delivery, xs: set<nat>, i: nat, k: nat, d: Digest)
    requires Inv(s) && Backed(s, xs) && NoVoteFrom(Step(s, e), xs) && Correct(s, i)
    ensures |Step(s, e).replicas| == s.config.n
    ensures Votes(Step(s, e).replicas[i].prepareQuorums, k, d) <= Backers(s, k, d) - xs ||
            |Backers(s, k, d) - xs| >= 2 * s.config.f
  {
    assert Member(s, i);
    var r, r' := s.replicas[i], Step(s, e).replicas[i];
    if i == e.to && CanStep(s, e) {
      PollPrepareQuorums(r, e.message);
      assert Correct(Step(s, e), i);
      if r'.prepareQuorums != r.prepareQuorums && (e.message.prepare.opNumber, e.message.prepare.digest) == (k, d) {
        VoterIsBacker(s, xs, k, d, e.message.prepare.replicaId);
      }
    }
  }

  lemma {:induction false} RunBacked(s: State, es: seq<Delivery>, xs: set<nat>)
    requires Inv(s) && Backed(s, xs) && NoVoteFrom(After(s, es), xs)
    ensures Inv(After(s, es)) && Backed(After(s, es), xs)
    decreases |es|
  {
    if es != [] {
      var m := After(s, es[..|es| - 1]);
      RunInv(s, es[..|es| - 1]);
      StepInv(m, es[|es| - 1]);
      NoVoteBefore(m, After(s, es), xs);
      RunBacked(s, es[..|es| - 1], xs);
      StepBacked(m, es[|es| - 1], xs);
    }
  }

  lemma NoVoteBefore(s: State, s': State, xs: set<nat>)
    requires Later(s, s') && NoVoteFrom(s', xs)
    ensures NoVoteFrom(s, xs)
  {
    forall i: nat, k, d | Correct(s, i) ensures Votes(s.replicas[i].prepareQuorums, k, d) !! xs {
      assert Correct(s', i) && Grows(s.replicas[i], s'.replicas[i]);
      assert Votes(s.replicas[i].prepareQuorums, k, d) <= Votes(s'.replicas[i].prepareQuorums, k, d);
    }
  }

  /** What a prepared certificate means: at least `2f` replicas are faulty or are backups whose own
      entry `k` has the certified digest. Ids that have cast no vote may be left out of the count. */
  lemma CertificateIsBacked(s: State, i: nat, k: nat, d: Digest, xs: set<nat>)
    requires Reachable(s) && Correct(s, i) && IsPrepared(s.replicas[i], k, d) && NoVoteFrom(s, xs)
    ensures |s.replicas| == s.config.n && |Backers(s, k, d) - xs| >= 2 * s.config.f
  {
    var s0 :| Initial(s0) && Reaches(s0, s);
    var es :| s == After(s0, es);
    RunConfig(s0, es);
    StartInv(s0);
    assert Backed(s0, xs);
    RunBacked(s0, es, xs);
    PreparedIsBacked(s, xs, i, k, d);
  }

  // ---------- Prepared certificates ----------

  /** Every log entry of a correct replica carries its own op number and its own digest, and is
      one that the primary sent if the primary is correct. */
  lemma EntryIsOwn(s: State, i: nat, k: nat)
    requires Reachable(s) && Correct(s, i) && HasEntry(s.replicas[i].log, k)
    ensures var e := s.replicas[i].log[k - 1];
            && e.prePrepare == PrePrepare(0, k, Sha256(e.requests))
            && (0 !in s.faulty ==> SendPrePrepare(0, k, e.requests) in s.replicas[0].toCrypto)
  {
    ReachableInv(s);
    assert Member(s, i) && Authentic(s, s.replicas[i]);
    assert EntrySigned(s, s.replicas[i].log[k - 1]);
  }

  /** With a correct primary, a prepared certificate is for the digest the primary sent. */
  lemma PreparedWithCorrectPrimary(s: State, i: nat, k: nat, d: Digest) returns (qs: seq<Request>)
    requires Reachable(s) && Correct(s, i) && 0 !in s.faulty && IsPrepared(s.replicas[i], k, d)
    ensures d == Sha256(qs) && SendPrePrepare(0, k, qs) in s.replicas[0].toCrypto
  {
    ReachableInv(s);
    CertificateIsBacked(s, i, k, d, {});
    var ids := Backers(s, k, d) - {};
    if ids <= s.faulty {
      SubsetSize(ids, s.faulty);
    }
    var j :| j in ids && j !in s.faulty;
    EntryIsOwn(s, j, k);
    qs := s.replicas[j].log[k - 1].requests;
  }

  lemma SentOnce(sent: seq<ToCrypto>, e: ToCrypto, e': ToCrypto)
    requires CastOnce(sent) && e in sent && e' in sent && SlotOf(e) == SlotOf(e') != NoSlot
    ensures e == e'
  {
  }

  /** Certificates for two digests are backed by a common replica outside `xs + s.faulty`, when two
      sets of `2f` backers must overlap by more than the faulty ones. */
  lemma CommonBacker(s: State, i: nat, j: nat, k: nat, d: Digest, d': Digest, xs: set<nat>)
    requires Reachable(s) && Correct(s, i) && Correct(s, j) && NoVoteFrom(s, xs) && xs <= Upto(s.config.n)
    requires IsPrepared(s.replicas[i], k, d) && IsPrepared(s.replicas[j], k, d')
    requires 4 * s.config.f > |Upto(s.config.n) - xs| + |s.faulty - xs|
    ensures d == d'
  {
    CertificateIsBacked(s, i, k, d, xs);
    CertificateIsBacked(s, j, k, d', xs);
    var b := Intersect(Backers(s, k, d) - xs, Backers(s, k, d') - xs, Upto(s.config.n) - xs, s.faulty - xs);
  }

  lemma UniqueWithCorrectPrimary(s: State, i: nat, j: nat, k: nat, d: Digest, d': Digest)
    requires Reachable(s) && Correct(s, i) && Correct(s, j) && 0 !in s.faulty
    requires IsPrepared(s.replicas[i], k, d) && IsPrepared(s.replicas[j], k, d')
    ensures d == d'
  {
    ReachableInv(s);
    assert Member(s, 0);
    var qs := PreparedWithCorrectPrimary(s, i, k, d);
    var qs' := PreparedWithCorrectPrimary(s, j, k, d');
    SentOnce(s.replicas[0].toCrypto, SendPrePrepare(0, k, qs), SendPrePrepare(0, k, qs'));
  }

  /** How many ids two certificates have to come from, at most. */
  lemma Overlap(config: Config, faulty: set<nat>)
    requires WellConfigured(config, faulty)
    ensures 0 in faulty ==> 4 * config.f > |Upto(config.n) - {0}| + |faulty - {0}|
    ensures |faulty| + 1 < config.f ==> 4 * config.f > |Upto(config.n) - {}| + |faulty - {}|
  {
    assert Upto(config.n) - {} == Upto(config.n) && faulty - {} == faulty;
  }

  /** Two correct replicas never hold prepared certificates for different digests at one op number. */
  lemma PreparedUnique(s: State, i: nat, j: nat, k: nat, d: Digest, d': Digest)
    requires Reachable(s) && Correct(s, i) && Correct(s, j) && Guarded(s)
    requires IsPrepared(s.replicas[i], k, d) && IsPrepared(s.replicas[j], k, d')
    ensures d == d'
  {
    Overlap(s.config, s.faulty);
    if 0 !in s.faulty {
      UniqueWithCorrectPrimary(s, i, j, k, d, d');
    } else if NoVoteFrom(s, {0}) {
      CommonBacker(s, i, j, k, d, d', {0});
    } else {
      CommonBacker(s, i, j, k, d, d', {});
    }
  }

  // ---------- Executed logs ----------

  ghost function ExecutedLog(r: Replica): seq<LogEntry>
    requires r.executeNumber <= |r.log|
  {
    r.log[..r.executeNumber]
  }

  /** The executed log of one of the replicas is a prefix of the other's. */
  ghost predicate LogsAgree(a: Replica, b: Replica) {
    && a.executeNumber <= |a.log| && b.executeNumber <= |b.log|
    && (ExecutedLog(a) <= ExecutedLog(b) || ExecutedLog(b) <= ExecutedLog(a))
  }

  ghost predicate Agrees(s: State) {
    && |s.replicas| == s.config.n
    && forall i: nat, j: nat :: Correct(s, i) && Correct(s, j) ==> LogsAgree(s.replicas[i], s.replicas[j])
  }

  /** Execution agreement: the executed logs of any two correct replicas are one a prefix of the
      other, in digests and in request batches. */
  lemma ExecutionAgreement(s: State)
    requires Reachable(s) && Guarded(s)
    ensures Agrees(s)
  {
    ReachableInv(s);
    forall i: nat, j: nat | Correct(s, i) && Correct(s, j) ensures LogsAgree(s.replicas[i], s.replicas[j]) {
      var a, b := s.replicas[i], s.replicas[j];
      assert Member(s, i) && Member(s, j);
      forall k | 0 <= k < a.executeNumber && k < b.executeNumber ensures ExecutedLog(a)[k] == ExecutedLog(b)[k] {
        assert CommittedEntry(a, k + 1) && CommittedEntry(b, k + 1);
        PreparedUnique(s, i, j, k + 1, a.log[k].prePrepare.digest, b.log[k].prePrepare.digest);
        EntryIsOwn(s, i, k + 1);
        EntryIsOwn(s, j, k + 1);
      }
    }
  }

  // ---------- Committed certificates ----------

  lemma CommitVoters(s: State, i: nat, k: nat, d: Digest) returns (voters: set<nat>)
    requires Reachable(s) && Correct(s, i) && IsCommitted(s.replicas[i], k, d)
    ensures voters == Votes(s.replicas[i].commitQuorums, k, d) - s.faulty && |voters| >= s.config.f + 1
    ensures forall j :: j in voters ==> Correct(s, j)
  {
    ReachableInv(s);
    assert Member(s, i) && Authentic(s, s.replicas[i]);
    var all := Votes(s.replicas[i].commitQuorums, k, d);
    voters := all - s.faulty;
    assert all == voters + all * s.faulty;
    SubsetSize(all * s.faulty, s.faulty);
    forall j | j in voters ensures Correct(s, j) {
      assert Voted(s, k, d, j);
    }
  }

  /** Replica `j` is a backup whose own entry it is, or holds a prepared certificate for it. */
  ghost predicate HoldsBatch(s: State, j: nat, k: nat, d: Digest) {
    j < |s.replicas| && ((j != 0 && LoggedAs(s.replicas[j], k, d)) || IsPrepared(s.replicas[j], k, d))
  }

  lemma HoldsLater(s: State, s': State, j: nat, k: nat, d: Digest)
    requires Reachable(s) && Reaches(s, s') && Correct(s, j) && HoldsBatch(s, j, k, d)
    ensures HoldsBatch(s', j, k, d) && (IsPrepared(s.replicas[j], k, d) ==> IsPrepared(s'.replicas[j], k, d))
  {
    CertificatesStable(s, s', j, k, d);
  }

  /** Whenever a correct replica holds a committed certificate, at least `f + 1` correct replicas
      have logged the batch or are prepared for it, and it stays so for the rest of the run. No
      condition on the primary. */
  lemma CommittedWidelyHeld(s: State, i: nat, k: nat, d: Digest) returns (witnesses: set<nat>)
    requires Reachable(s) && Correct(s, i) && IsCommitted(s.replicas[i], k, d)
    ensures |witnesses| >= s.config.f + 1
    ensures forall j :: j in witnesses ==> Correct(s, j)
    ensures forall j, s' :: j in witnesses && Reaches(s, s') ==> HoldsBatch(s', j, k, d)
  {
    witnesses := CommitVoters(s, i, k, d);
    forall j, s' | j in witnesses && Reaches(s, s') ensures HoldsBatch(s', j, k, d) {
      VoteMeansEntry(s, i, k, d, j);
      HoldsLater(s, s', j, k, d);
    }
  }

  /** Every commit counted by replica `i` that names a correct replica was sent as a commit. */
  ghost predicate CommitsAreCommits(s: State, i: nat, k: nat, d: Digest)
    requires Correct(s, i)
  {
    forall j :: j in Votes(s.replicas[i].commitQuorums, k, d) && Correct(s, j) ==>
      SendCommit(Commit(0, k, d, j)) in s.replicas[j].toCrypto
  }

  lemma CommitterIsPrepared(s: State, j: nat, k: nat, d: Digest)
    requires Reachable(s) && Correct(s, j) && SendCommit(Commit(0, k, d, j)) in s.replicas[j].toCrypto
    ensures IsPrepared(s.replicas[j], k, d)
  {
    ReachableInv(s);
    assert Member(s, j) && Justified(s.replicas[j], SendCommit(Commit(0, k, d, j)));
  }

  /** If no prepare was counted as a commit, the `f + 1` correct replicas are all prepared. */
  lemma CommittedWidelyPrepared(s: State, i: nat, k: nat, d: Digest) returns (witnesses: set<nat>)
    requires Reachable(s) && Correct(s, i) && IsCommitted(s.replicas[i], k, d) && CommitsAreCommits(s, i, k, d)
    ensures |witnesses| >= s.config.f + 1
    ensures forall j :: j in witnesses ==> Correct(s, j)
    ensures forall j, s' :: j in witnesses && Reaches(s, s') ==>
              j < |s'.replicas| && IsPrepared(s'.replicas[j], k, d)
  {
    witnesses := CommitVoters(s, i, k, d);
    forall j, s' | j in witnesses && Reaches(s, s') ensures j < |s'.replicas| && IsPrepared(s'.replicas[j], k, d) {
      CommitterIsPrepared(s, j, k, d);
      HoldsLater(s, s', j, k, d);
    }
  }

  /** Certificates are stable: what is prepared or committed stays so along every run. */
  lemma CertificatesStable(s: State, s': State, i: nat, k: nat, d: Digest)
    requires Reachable(s) && Reaches(s, s') && Correct(s, i)
    ensures Correct(s', i)
    ensures IsPrepared(s.replicas[i], k, d) ==> IsPrepared(s'.replicas[i], k, d)
    ensures IsCommitted(s.replicas[i], k, d) ==> IsCommitted(s'.replicas[i], k, d)
    ensures s.replicas[i].log <= s'.replicas[i].log
  {
    ReachableInv(s);
    var es :| s' == After(s, es);
    RunInv(s, es);
    if IsPrepared(s.replicas[i], k, d) {
      PreparedStable(s.replicas[i], s'.replicas[i], k, d);
    }
    if IsCommitted(s.replicas[i], k, d) {
      CommittedStable(s.replicas[i], s'.replicas[i], k, d);
    }
  }

  /** Over a whole run a correct replica sends at most one prepare per op number and at most one
      commit per op number and digest, counted by position in its history. */
  lemma VotesCastOnce(s: State, i: nat, a: nat, b: nat)
    requires Reachable(s) && Correct(s, i) && a < b < |s.replicas[i].toCrypto|
    ensures var x, y := s.replicas[i].toCrypto[a], s.replicas[i].toCrypto[b];
            && (x.SendPrepare? && y.SendPrepare? ==> x.prepare.opNumber != y.prepare.opNumber)
            && (x.SendCommit? && y.SendCommit? ==>
                  (x.commit.opNumber, x.commit.digest) != (y.commit.opNumber, y.commit.digest))
            && (x.SendPrePrepare? && y.SendPrePrepare? ==> x.opNumber != y.opNumber)
  {
    ReachableInv(s);
    assert Member(s, i);
    var x, y := s.replicas[i].toCrypto[a], s.replicas[i].toCrypto[b];
    assert SlotOf(x) == SlotOf(y) ==> SlotOf(x) == NoSlot;
  }
}
