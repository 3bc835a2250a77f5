/** What every message keeps at one replica: the shape of its log, the stability of its
    certificates, and the uniqueness of the votes it casts. */
module Invariants {
  import opened Messages
  import opened ReplicaModel
  import opened Sets

  /** The check the crypto thread makes on the body of a pre-prepare. */
  predicate Hashed(m: ToReplica) {
    m.ToPrePrepare? ==> m.prePrepare.digest == Sha256(m.requests)
  }

  // ---------- Growth ----------

  ghost predicate MoreVotes(q: Quorums, q': Quorums) {
    forall k, d :: Votes(q, k, d) <= Votes(q', k, d)
  }

  /** Nothing recorded is lost: `r'` extends `r`. */
  ghost predicate Grows(r: Replica, r': Replica) {
    && r'.id == r.id && r'.config == r.config && r'.viewNumber == r.viewNumber
    && r.log <= r'.log
    && r.toCrypto <= r'.toCrypto
    && r.executeNumber <= r'.executeNumber
    && r.opNumber <= r'.opNumber
    && MoreVotes(r.prepareQuorums, r'.prepareQuorums)
    && MoreVotes(r.commitQuorums, r'.commitQuorums)
    && r'.app.respond == r.app.respond
  }

  lemma GrowsTransitive(a: Replica, b: Replica, c: Replica)
    requires Grows(a, b) && Grows(b, c)
    ensures Grows(a, c)
  {
  }

  lemma PreparedStable(r: Replica, r': Replica, k: nat, d: Digest)
    requires Grows(r, r') && IsPrepared(r, k, d)
    ensures IsPrepared(r', k, d)
  {
    SubsetSize(Votes(r.prepareQuorums, k, d), Votes(r'.prepareQuorums, k, d));
  }

  lemma CommittedStable(r: Replica, r': Replica, k: nat, d: Digest)
    requires Grows(r, r') && IsCommitted(r, k, d)
    ensures IsCommitted(r', k, d)
  {
    PreparedStable(r, r', k, d);
    SubsetSize(Votes(r.commitQuorums, k, d), Votes(r'.commitQuorums, k, d));
  }

  // ---------- Log and certificates ----------

  predicate GoodEntry(e: LogEntry, k: nat) {
    e.prePrepare.viewNumber == 0 && e.prePrepare.opNumber == k && e.prePrepare.digest == Sha256(e.requests)
  }

  ghost predicate ExecutedCommitted(r: Replica) {
    r.executeNumber <= |r.log| &&
    forall k :: 1 <= k <= r.executeNumber ==> CommittedEntry(r, k)
  }

  /** `LogInv` without the claim that the next entry is not waiting in the buffer. */
  ghost predicate Draining(r: Replica) {
    && r.viewNumber == 0 && r.id < r.config.n
    && (forall k :: 0 <= k < |r.log| ==> GoodEntry(r.log[k], k + 1))
    && (forall k :: k in r.reorder ==>
          r.reorder[k].prePrepare.opNumber == k && r.reorder[k].prePrepare.digest == Sha256(r.reorder[k].requests))
    && ExecutedCommitted(r)
    && CastInv(r)
  }

  ghost predicate LogInv(r: Replica) {
    Draining(r) && NextEntry(r) !in r.reorder
  }

  // ---------- Votes ----------

  /** What a message decides. A replica may decide each slot once. */
  datatype Slot = NoSlot | PrePrepareSlot(k: nat) | PrepareSlot(k: nat) | CommitSlot(k: nat, digest: Digest)

  function SlotOf(e: ToCrypto): Slot {
    match e
    case SendReply(_, _, _) => NoSlot
    case SendPrePrepare(_, k, _) => PrePrepareSlot(k)
    case SendPrepare(p) => PrepareSlot(p.opNumber)
    case SendCommit(c) => CommitSlot(c.opNumber, c.digest)
  }

  /** Why `r` was entitled to send `e`. */
  ghost predicate Justified(r: Replica, e: ToCrypto) {
    match e
    case SendReply(_, _, _) => true
    case SendPrePrepare(v, k, _) => v == 0 && r.id == 0 && 1 <= k <= r.opNumber
    case SendPrepare(p) =>
      p.viewNumber == 0 && p.replicaId == r.id && r.id != 0 && HasEntry(r.log, p.opNumber) &&
      r.log[p.opNumber - 1].prePrepare.digest == p.digest
    case SendCommit(c) =>
      c.viewNumber == 0 && c.replicaId == r.id && IsPrepared(r, c.opNumber, c.digest)
  }

  ghost predicate CastOnce(sent: seq<ToCrypto>) {
    forall i, j :: 0 <= i < j < |sent| && SlotOf(sent[i]) == SlotOf(sent[j]) ==> SlotOf(sent[i]) == NoSlot
  }

  ghost predicate CastInv(r: Replica) {
    CastOnce(r.toCrypto) && forall e :: e in r.toCrypto ==> Justified(r, e)
  }

  lemma JustifiedStable(r: Replica, r': Replica, e: ToCrypto)
    requires Grows(r, r') && Justified(r, e)
    ensures Justified(r', e)
  {
    if e.SendCommit? {
      PreparedStable(r, r', e.commit.opNumber, e.commit.digest);
    }
  }

  lemma CastKept(r: Replica, r': Replica)
    requires CastInv(r) && Grows(r, r') && r'.toCrypto == r.toCrypto
    ensures CastInv(r')
  {
    forall e | e in r'.toCrypto ensures Justified(r', e) {
      JustifiedStable(r, r', e);
    }
  }

  lemma CastSent(r: Replica, r': Replica, e: ToCrypto)
    requires CastInv(r) && Grows(r, r') && r'.toCrypto == r.toCrypto + [e]
    requires Justified(r', e)
    requires SlotOf(e) != NoSlot ==> forall x :: x in r.toCrypto ==> SlotOf(x) != SlotOf(e)
    ensures CastInv(r')
  {
    forall x | x in r'.toCrypto ensures Justified(r', x) {
      if x != e {
        JustifiedStable(r, r', x);
      }
    }
  }

  lemma ExecutedKept(r: Replica, r': Replica)
    requires ExecutedCommitted(r) && Grows(r, r') && r'.executeNumber == r.executeNumber
    ensures ExecutedCommitted(r')
  {
    forall k | 1 <= k <= r'.executeNumber ensures CommittedEntry(r', k) {
      assert CommittedEntry(r, k);
      CommittedStable(r, r', k, r.log[k - 1].prePrepare.digest);
    }
  }

  // ---------- One handler at a time ----------

  /** Sending keeps everything when the message is justified and its slot is still free. */
  lemma SendKeeps(r: Replica, e: ToCrypto)
    requires Draining(r) && Justified(r, e)
    requires SlotOf(e) != NoSlot ==> forall x :: x in r.toCrypto ==> SlotOf(x) != SlotOf(e)
    ensures Draining(Send(r, e)) && Grows(r, Send(r, e))
  {
    JustifiedStable(r, Send(r, e), e);
    CastSent(r, Send(r, e), e);
    ExecutedKept(r, Send(r, e));
  }

  lemma CloseBatchKeeps(r: Replica)
    requires LogInv(r) && r.id == 0
    ensures LogInv(CloseBatch(r)) && Grows(r, CloseBatch(r))
  {
    var r1 := r.(opNumber := r.opNumber + 1, requests := []);
    CastKept(r, r1);
    ExecutedKept(r, r1);
    SendKeeps(r1, SendPrePrepare(r.viewNumber, r.opNumber + 1, r.requests));
  }

  lemma PrimaryIsZero(r: Replica)
    requires r.viewNumber == 0 && r.id < r.config.n
    ensures IsPrimary(r) <==> r.id == 0
  {
  }

  lemma RequestsKeep(r: Replica, qs: seq<Request>)
    requires LogInv(r)
    ensures LogInv(r.(requests := qs)) && Grows(r, r.(requests := qs))
  {
    CastKept(r, r.(requests := qs));
    ExecutedKept(r, r.(requests := qs));
  }

  lemma PanicKeeps(r: Replica)
    requires LogInv(r)
    ensures LogInv(r.(panicked := true)) && Grows(r, r.(panicked := true))
  {
    CastKept(r, r.(panicked := true));
    ExecutedKept(r, r.(panicked := true));
  }

  lemma HandleRequestKeeps(r: Replica, q: Request)
    requires LogInv(r)
    ensures LogInv(HandleRequest(r, q)) && Grows(r, HandleRequest(r, q))
  {
    PrimaryIsZero(r);
    if Answered(r.clientTable, q) {
      SendKeeps(r, SendReply(q.addr, q.clientId, r.clientTable[q.clientId]));
    } else if !IsPrimary(r) {
      PanicKeeps(r);
    } else {
      RequestsKeep(r, r.requests + [q]);
      if r.opNumber < r.executeNumber + 6 {
        CloseBatchKeeps(r.(requests := r.requests + [q]));
      }
    }
  }

  lemma PushKeeps(r: Replica, entry: LogEntry)
    requires Draining(r) && GoodEntry(entry, NextEntry(r))
    ensures Draining(r.(log := r.log + [entry])) && Grows(r, r.(log := r.log + [entry]))
  {
    var r' := r.(log := r.log + [entry]);
    CastKept(r, r');
    ExecutedKept(r, r');
  }

  lemma HandlePrePrepareKeeps(r: Replica, entry: LogEntry)
    requires Draining(r)
    requires entry.prePrepare.opNumber == NextEntry(r) && entry.prePrepare.digest == Sha256(entry.requests)
    ensures Draining(HandlePrePrepare(r, entry)) && Grows(r, HandlePrePrepare(r, entry))
  {
    var pp := entry.prePrepare;
    PrimaryIsZero(r);
    if pp.viewNumber == r.viewNumber {
      PushKeeps(r, entry);
      if !IsPrimary(r) {
        var r1 := r.(log := r.log + [entry]);
        var e := SendPrepare(Prepare(r.viewNumber, pp.opNumber, pp.digest, r.id));
        forall x | x in r1.toCrypto ensures SlotOf(x) != SlotOf(e) {
          assert Justified(r, x);
        }
        SendKeeps(r1, e);
        GrowsTransitive(r, r1, Send(r1, e));
      }
    }
  }

  lemma DrainOneKeeps(r: Replica)
    requires Draining(r) && CanDrain(r)
    ensures Draining(DrainOne(r)) && Grows(r, DrainOne(r))
  {
    var k := NextEntry(r);
    var r1 := r.(reorder := r.reorder - {k});
    CastKept(r, r1);
    ExecutedKept(r, r1);
    HandlePrePrepareKeeps(r1, r.reorder[k]);
    GrowsTransitive(r, r1, DrainOne(r));
  }

  lemma {:induction false} DrainKeeps(r: Replica)
    requires Draining(r)
    ensures LogInv(Drain(r)) && Grows(r, Drain(r))
    decreases |r.reorder|
  {
    if CanDrain(r) {
      DrainOneKeeps(r);
      DrainKeeps(DrainOne(r));
      GrowsTransitive(r, DrainOne(r), Drain(r));
    }
  }

  lemma ReceivePrePrepareKeeps(r: Replica, entry: LogEntry)
    requires LogInv(r) && entry.prePrepare.digest == Sha256(entry.requests)
    ensures LogInv(ReceivePrePrepare(r, entry)) && Grows(r, ReceivePrePrepare(r, entry))
  {
    if entry.prePrepare.opNumber != NextEntry(r) {
      CastKept(r, ReceivePrePrepare(r, entry));
      ExecutedKept(r, ReceivePrePrepare(r, entry));
    } else {
      HandlePrePrepareKeeps(r, entry);
      DrainKeeps(HandlePrePrepare(r, entry));
      GrowsTransitive(r, HandlePrePrepare(r, entry), ReceivePrePrepare(r, entry));
    }
  }

  lemma HandlePrepareKeeps(r: Replica, m: Prepare)
    requires LogInv(r)
    ensures LogInv(HandlePrepare(r, m)) && Grows(r, HandlePrepare(r, m))
  {
    if m.viewNumber == r.viewNumber && !IsPrepared(r, m.opNumber, m.digest) {
      var r1 := CountPrepare(r, m);
      CastKept(r, r1);
      ExecutedKept(r, r1);
      if IsPrepared(r1, m.opNumber, m.digest) {
        var e := SendCommit(Commit(r.viewNumber, m.opNumber, m.digest, r.id));
        forall x | x in r1.toCrypto ensures SlotOf(x) != SlotOf(e) {
          assert Justified(r, x);
        }
        SendKeeps(r1, e);
        GrowsTransitive(r, r1, Send(r1, e));
      }
    }
  }

  lemma ExecuteRequestKeeps(r: Replica, q: Request)
    requires LogInv(r)
    ensures LogInv(ExecuteRequest(r, q)) && Grows(r, ExecuteRequest(r, q))
  {
    var r' := ExecuteRequest(r, q);
    if r' != r {
      var r1 := r.(app := r'.app, clientTable := r'.clientTable);
      CastKept(r, r1);
      ExecutedKept(r, r1);
      SendKeeps(r1, r'.toCrypto[|r.toCrypto|]);
      GrowsTransitive(r, r1, r');
    }
  }

  lemma {:induction false} ExecuteRequestsKeeps(r: Replica, qs: seq<Request>)
    requires LogInv(r)
    ensures LogInv(ExecuteRequests(r, qs)) && Grows(r, ExecuteRequests(r, qs))
    decreases |qs|
  {
    if qs != [] {
      var r1 := ExecuteRequests(r, qs[..|qs| - 1]);
      ExecuteRequestsKeeps(r, qs[..|qs| - 1]);
      ExecuteRequestKeeps(r1, qs[|qs| - 1]);
      GrowsTransitive(r, r1, ExecuteRequests(r, qs));
    }
  }

  lemma ExecuteEntryKeeps(r: Replica)
    requires LogInv(r) && CanExecute(r)
    ensures LogInv(ExecuteEntry(r)) && Grows(r, ExecuteEntry(r))
  {
    var r1 := r.(executeNumber := r.executeNumber + 1);
    CastKept(r, r1);
    forall k | 1 <= k <= r1.executeNumber ensures CommittedEntry(r1, k) {
      assert CommittedEntry(r, k);
      CommittedStable(r, r1, k, r1.log[k - 1].prePrepare.digest);
    }
    ExecuteRequestsKeeps(r1, r.log[r.executeNumber].requests);
    GrowsTransitive(r, r1, ExecuteEntry(r));
  }

  lemma {:induction false} ExecuteKeeps(r: Replica)
    requires LogInv(r)
    ensures LogInv(Execute(r)) && Grows(r, Execute(r))
    decreases |r.log| - r.executeNumber
  {
    if CanExecute(r) {
      ExecuteEntryKeeps(r);
      ExecuteKeeps(ExecuteEntry(r));
      GrowsTransitive(r, ExecuteEntry(r), Execute(r));
    }
  }

  lemma AdvanceKeeps(r: Replica)
    requires LogInv(r)
    ensures LogInv(Advance(r)) && Grows(r, Advance(r))
  {
    ExecuteKeeps(r);
    var r' := Execute(r);
    PrimaryIsZero(r');
    if IsPrimary(r') && r'.requests != [] {
      CloseBatchKeeps(r');
      GrowsTransitive(r, r', CloseBatch(r'));
    }
  }

  lemma CountCommitKeeps(r: Replica, m: Commit)
    requires LogInv(r)
    ensures LogInv(CountCommit(r, m)) && Grows(r, CountCommit(r, m))
  {
    CastKept(r, CountCommit(r, m));
    ExecutedKept(r, CountCommit(r, m));
  }

  lemma HandleCommitKeeps(r: Replica, m: Commit)
    requires LogInv(r)
    ensures LogInv(HandleCommit(r, m)) && Grows(r, HandleCommit(r, m))
  {
    CountCommitKeeps(r, m);
    if HandleCommit(r, m) != r && HandleCommit(r, m) != CountCommit(r, m) {
      AdvanceKeeps(CountCommit(r, m));
      GrowsTransitive(r, CountCommit(r, m), Advance(CountCommit(r, m)));
    }
  }

  /** Every message a replica takes keeps `LogInv` and loses nothing already recorded. */
  lemma PollKeeps(r: Replica, m: ToReplica)
    requires LogInv(r) && Hashed(m)
    ensures LogInv(Poll(r, m)) && Grows(r, Poll(r, m))
  {
    if !r.panicked {
      match m
      case ToRequest(q) => HandleRequestKeeps(r, q);
      case ToPrePrepare(pp, qs) => ReceivePrePrepareKeeps(r, LogEntry(pp, qs));
      case ToPrepare(p) => HandlePrepareKeeps(r, p);
      case ToCommit(c) => HandleCommitKeeps(r, c);
    }
  }

  /** Taking the messages `ms` in order brings a new replica to `r`. */
  ghost predicate Reached(r: Replica, ms: seq<ToReplica>) {
    && (forall m :: m in ms ==> Hashed(m))
    && exists id: nat, config: Config, respond: seq<Call> -> Bytes ::
         id < config.n && r == PollAll(New(id, config, respond), ms)
  }

  lemma ReachedBefore(r: Replica, ms: seq<ToReplica>) returns (r0: Replica)
    requires Reached(r, ms) && ms != []
    ensures Reached(r0, ms[..|ms| - 1]) && r == Poll(r0, ms[|ms| - 1]) && Hashed(ms[|ms| - 1])
  {
    var id: nat, config: Config, respond: seq<Call> -> Bytes :|
      id < config.n && r == PollAll(New(id, config, respond), ms);
    r0 := PollAll(New(id, config, respond), ms[..|ms| - 1]);
  }

  /** What every message keeps holds after any sequence of messages. */
  lemma {:induction false} ReachedKeeps(r: Replica, ms: seq<ToReplica>)
    requires Reached(r, ms)
    ensures LogInv(r)
    decreases |ms|
  {
    if ms != [] {
      var r0 := ReachedBefore(r, ms);
      ReachedKeeps(r0, ms[..|ms| - 1]);
      PollKeeps(r0, ms[|ms| - 1]);
    }
  }

  // ---------- Execution ----------

  /** `Execute` stops at the first entry that is missing or not committed with its own digest,
      and everything it passed over was committed. */
  lemma {:induction false} ExecuteIsMaximal(r: Replica)
    requires LogInv(r)
    ensures var m := Execute(r).executeNumber;
            && r.executeNumber <= m <= |r.log| && Execute(r).log == r.log
            && (forall k :: r.executeNumber < k <= m ==> CommittedEntry(r, k))
            && !CommittedEntry(r, m + 1)
    decreases |r.log| - r.executeNumber
  {
    if CanExecute(r) {
      var r1 := ExecuteEntry(r);
      ExecuteEntryKeeps(r);
      ExecuteRequestsFrame(r.(executeNumber := r.executeNumber + 1), r.log[r.executeNumber].requests);
      ExecuteIsMaximal(r1);
      var m := Execute(r1).executeNumber;
      forall k | r.executeNumber < k <= m ensures CommittedEntry(r, k) {
        if k > r1.executeNumber {
          assert CommittedEntry(r1, k);
        }
      }
    }
  }

  // ---------- What the loops leave alone ----------

  /** `r'` differs from `r` at most in what executing requests changes. */
  ghost predicate SameButExecution(r: Replica, r': Replica) {
    && r'.id == r.id && r'.config == r.config && r'.viewNumber == r.viewNumber && r'.opNumber == r.opNumber
    && r'.log == r.log && r'.reorder == r.reorder && r'.requests == r.requests && r'.panicked == r.panicked
    && r'.prepareQuorums == r.prepareQuorums && r'.commitQuorums == r.commitQuorums
  }

  lemma {:induction false} ExecuteRequestsFrame(r: Replica, qs: seq<Request>)
    ensures SameButExecution(r, ExecuteRequests(r, qs))
    decreases |qs|
  {
    if qs != [] {
      ExecuteRequestsFrame(r, qs[..|qs| - 1]);
    }
  }

  lemma {:induction false} ExecuteFrame(r: Replica)
    ensures SameButExecution(r, Execute(r))
    decreases |r.log| - r.executeNumber
  {
    if CanExecute(r) {
      ExecuteRequestsFrame(r.(executeNumber := r.executeNumber + 1), r.log[r.executeNumber].requests);
      ExecuteFrame(ExecuteEntry(r));
    }
  }

  /** `r'` differs from `r` at most in what draining the reorder buffer changes. */
  ghost predicate SameButLog(r: Replica, r': Replica) {
    && r'.id == r.id && r'.config == r.config && r'.viewNumber == r.viewNumber && r'.opNumber == r.opNumber
    && r'.executeNumber == r.executeNumber && r'.app == r.app && r'.clientTable == r.clientTable
    && r'.requests == r.requests && r'.panicked == r.panicked
    && r'.prepareQuorums == r.prepareQuorums && r'.commitQuorums == r.commitQuorums
  }

  lemma HandlePrePrepareFrame(r: Replica, e: LogEntry)
    ensures SameButLog(r, HandlePrePrepare(r, e))
  {
  }

  lemma DrainOneFrame(r: Replica)
    requires CanDrain(r)
    ensures SameButLog(r, DrainOne(r))
  {
    var k := NextEntry(r);
    HandlePrePrepareFrame(r.(reorder := r.reorder - {k}), r.reorder[k]);
  }

  lemma {:induction false} DrainFrame(r: Replica)
    ensures SameButLog(r, Drain(r))
    decreases |r.reorder|
  {
    if CanDrain(r) {
      DrainOneFrame(r);
      DrainFrame(DrainOne(r));
    }
  }

  lemma ReceivePrePrepareFrame(r: Replica, e: LogEntry)
    ensures SameButLog(r, ReceivePrePrepare(r, e))
  {
    if e.prePrepare.opNumber == NextEntry(r) {
      HandlePrePrepareFrame(r, e);
      DrainFrame(HandlePrePrepare(r, e));
    }
  }

  lemma AdvanceFrame(r: Replica)
    ensures var r' := Advance(r);
            r'.prepareQuorums == r.prepareQuorums && r'.commitQuorums == r.commitQuorums &&
            r'.log == r.log && r'.reorder == r.reorder
  {
    ExecuteFrame(r);
  }

  /** Counting a commit changes the commit votes and may run `Execute` and close a batch. */
  lemma HandleCommitFrame(r: Replica, c: Commit)
    ensures var r' := HandleCommit(r, c);
            && r'.prepareQuorums == r.prepareQuorums && r'.log == r.log && r'.reorder == r.reorder
            && (r'.commitQuorums == r.commitQuorums ||
                (c.viewNumber == r.viewNumber &&
                 r'.commitQuorums == AddVote(r.commitQuorums, c.opNumber, c.digest, c.replicaId)))
  {
    AdvanceFrame(CountCommit(r, c));
  }

  /** The log, its buffer and the votes are the same. */
  ghost predicate SameRecords(r: Replica, r': Replica) {
    && r'.log == r.log && r'.reorder == r.reorder
    && r'.prepareQuorums == r.prepareQuorums && r'.commitQuorums == r.commitQuorums
  }

  lemma SendFrame(r: Replica, e: ToCrypto)
    ensures SameRecords(r, Send(r, e))
  {
  }

  lemma CloseBatchFrame(r: Replica)
    ensures SameRecords(r, CloseBatch(r))
  {
  }

  lemma HandleRequestFrame(r: Replica, q: Request)
    ensures SameRecords(r, HandleRequest(r, q))
  {
    if Answered(r.clientTable, q) {
      SendFrame(r, SendReply(q.addr, q.clientId, r.clientTable[q.clientId]));
    } else if IsPrimary(r) {
      CloseBatchFrame(r.(requests := r.requests + [q]));
    }
  }

  /** Counting a prepare changes the prepare votes and may send a commit. */
  lemma HandlePrepareFrame(r: Replica, p: Prepare)
    ensures var r' := HandlePrepare(r, p);
            SameRecords(r, r') ||
            (p.viewNumber == r.viewNumber && SameRecords(CountPrepare(r, p), r'))
  {
    SendFrame(CountPrepare(r, p), SendCommit(Commit(r.viewNumber, p.opNumber, p.digest, r.id)));
  }

  /** Only a pre-prepare touches the log and its buffer. */
  lemma PollLogFrame(r: Replica, m: ToReplica)
    requires !m.ToPrePrepare?
    ensures Poll(r, m).log == r.log && Poll(r, m).reorder == r.reorder
  {
    match m
    case ToRequest(q) => HandleRequestFrame(r, q);
    case ToPrePrepare(_, _) =>
    case ToPrepare(p) => HandlePrepareFrame(r, p);
    case ToCommit(c) => HandleCommitFrame(r, c);
  }
}
