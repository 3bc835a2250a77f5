/** How the primary batches requests and how far it runs ahead of execution. */
module Primary {
  import opened Messages
  import opened ReplicaModel
  import opened Invariants
  import opened Sets
  import opened Service

  /** The batches sent so far, in order. */
  function Batches(sent: seq<ToCrypto>): seq<seq<Request>>
    decreases |sent|
  {
    if sent == [] then []
    else
      var rest := Batches(sent[..|sent| - 1]);
      match sent[|sent| - 1]
      case SendPrePrepare(_, _, qs) => rest + [qs]
      case _ => rest
  }

  lemma BatchesAppend(sent: seq<ToCrypto>, e: ToCrypto)
    ensures Batches(sent + [e]) == Batches(sent) + if e.SendPrePrepare? then [e.requests] else []
  {
  }

  /** The certificates that are committed at `r`. */
  ghost function CommittedPairs(r: Replica): set<(nat, Digest)> {
    set p | p in r.commitQuorums && IsCommitted(r, p.0, p.1)
  }

  /** Batch `k` is what was sent with op number `k`, and nothing else was. */
  ghost predicate Numbered(r: Replica) {
    && |Batches(r.toCrypto)| == r.opNumber
    && forall v: nat, k: nat, qs :: SendPrePrepare(v, k, qs) in r.toCrypto ==>
         v == 0 && 1 <= k <= r.opNumber && Batches(r.toCrypto)[k - 1] == qs
  }

  ghost predicate Window(r: Replica) {
    && r.opNumber <= |CommittedPairs(r)| + 6
    && (r.requests != [] ==> r.opNumber >= r.executeNumber + 6)
    && (r.id != 0 ==> r.requests == [] && r.opNumber == 0)
  }

  ghost predicate PrimaryInv(r: Replica) {
    Numbered(r) && Window(r)
  }

  // ---------- Counting committed certificates ----------

  lemma CommittedGrow(r: Replica, r': Replica)
    requires Grows(r, r')
    ensures CommittedPairs(r) <= CommittedPairs(r') && |CommittedPairs(r)| <= |CommittedPairs(r')|
  {
    forall p | p in CommittedPairs(r) ensures p in CommittedPairs(r') {
      CommittedStable(r, r', p.0, p.1);
      assert Votes(r'.commitQuorums, p.0, p.1) != {};
    }
    SubsetSize(CommittedPairs(r), CommittedPairs(r'));
  }

  lemma CommitCounted(r: Replica, r': Replica, k: nat, d: Digest)
    requires Grows(r, r') && IsCommitted(r', k, d) && !IsCommitted(r, k, d)
    ensures |CommittedPairs(r')| >= |CommittedPairs(r)| + 1
  {
    CommittedGrow(r, r');
    assert Votes(r'.commitQuorums, k, d) != {};
    assert (k, d) in CommittedPairs(r') && (k, d) !in CommittedPairs(r);
    SubsetSize(CommittedPairs(r) + {(k, d)}, CommittedPairs(r'));
  }

  ghost function FirstPairs(log: seq<LogEntry>, m: nat): (ps: set<(nat, Digest)>)
    requires m <= |log|
    ensures |ps| == m && forall p :: p in ps ==> 1 <= p.0 <= m && p.1 == log[p.0 - 1].prePrepare.digest
  {
    if m == 0 then {} else FirstPairs(log, m - 1) + {(m, log[m - 1].prePrepare.digest)}
  }

  /** Each executed entry accounts for a committed certificate of its own. */
  lemma ExecutedCount(r: Replica)
    requires ExecutedCommitted(r)
    ensures r.executeNumber <= |CommittedPairs(r)|
  {
    var ps := FirstPairs(r.log, r.executeNumber);
    forall p | p in ps ensures p in CommittedPairs(r) {
      assert CommittedEntry(r, p.0);
      assert Votes(r.commitQuorums, p.0, p.1) != {};
    }
    SubsetSize(ps, CommittedPairs(r));
  }

  // ---------- Preservation ----------

  /** `r'` extends `r` without batching, executing or accepting anything. */
  ghost predicate Idle(r: Replica, r': Replica) {
    && Grows(r, r') && r'.opNumber == r.opNumber && r'.executeNumber == r.executeNumber
    && r'.requests == r.requests && Batches(r'.toCrypto) == Batches(r.toCrypto)
    && forall e :: e in r'.toCrypto && e.SendPrePrepare? ==> e in r.toCrypto
  }

  lemma IdleKeeps(r: Replica, r': Replica)
    requires PrimaryInv(r) && Idle(r, r')
    ensures PrimaryInv(r')
  {
    CommittedGrow(r, r');
  }

  lemma SendIdle(r: Replica, e: ToCrypto)
    requires !e.SendPrePrepare?
    ensures Idle(r, Send(r, e))
  {
  }

  lemma CloseNumbered(r: Replica)
    requires Numbered(r) && r.viewNumber == 0
    ensures Numbered(CloseBatch(r))
    ensures Batches(CloseBatch(r).toCrypto) == Batches(r.toCrypto) + [r.requests]
  {
  }

  lemma {:induction false} DrainIdle(r: Replica)
    requires Draining(r)
    ensures Idle(r, Drain(r))
    decreases |r.reorder|
  {
    if CanDrain(r) {
      DrainOneKeeps(r);
      var r1 := r.(reorder := r.reorder - {NextEntry(r)});
      var entry := r.reorder[NextEntry(r)];
      HandlePrePrepareIdle(r1, entry);
      DrainIdle(DrainOne(r));
    }
  }

  lemma HandlePrePrepareIdle(r: Replica, entry: LogEntry)
    ensures Idle(r, HandlePrePrepare(r, entry))
  {
    var pp := entry.prePrepare;
    SendIdle(r.(log := r.log + [entry]), SendPrepare(Prepare(r.viewNumber, pp.opNumber, pp.digest, r.id)));
  }

  lemma ReceiveIdle(r: Replica, entry: LogEntry)
    requires LogInv(r) && entry.prePrepare.digest == Sha256(entry.requests)
    ensures Idle(r, ReceivePrePrepare(r, entry))
  {
    if entry.prePrepare.opNumber == NextEntry(r) {
      HandlePrePrepareIdle(r, entry);
      HandlePrePrepareKeeps(r, entry);
      DrainIdle(HandlePrePrepare(r, entry));
    }
  }

  lemma HandlePrepareIdle(r: Replica, p: Prepare)
    ensures Idle(r, HandlePrepare(r, p))
  {
    SendIdle(CountPrepare(r, p), SendCommit(Commit(r.viewNumber, p.opNumber, p.digest, r.id)));
  }

  /** Executing changes nothing that batching looks at except `executeNumber`. */
  lemma {:induction false} ExecuteRequestsBatches(r: Replica, qs: seq<Request>)
    ensures Batches(ExecuteRequests(r, qs).toCrypto) == Batches(r.toCrypto)
    ensures forall e :: e in ExecuteRequests(r, qs).toCrypto && e.SendPrePrepare? ==> e in r.toCrypto
    decreases |qs|
  {
    if qs != [] {
      ExecuteRequestsBatches(r, qs[..|qs| - 1]);
      var r1 := ExecuteRequests(r, qs[..|qs| - 1]);
      var r2 := ExecuteRequests(r, qs);
      if r2 != r1 {
        BatchesAppend(r1.toCrypto, r2.toCrypto[|r1.toCrypto|]);
      }
    }
  }

  lemma {:induction false} ExecuteBatches(r: Replica)
    ensures Batches(Execute(r).toCrypto) == Batches(r.toCrypto)
    ensures forall e :: e in Execute(r).toCrypto && e.SendPrePrepare? ==> e in r.toCrypto
    decreases |r.log| - r.executeNumber
  {
    if CanExecute(r) {
      ExecuteRequestsBatches(r.(executeNumber := r.executeNumber + 1), r.log[r.executeNumber].requests);
      ExecuteBatches(ExecuteEntry(r));
    }
  }

  lemma AcceptKeeps(r: Replica, q: Request)
    requires LogInv(r) && PrimaryInv(r) && IsPrimary(r) && !Answered(r.clientTable, q)
    ensures PrimaryInv(HandleRequest(r, q))
  {
    PrimaryIsZero(r);
    var r1 := r.(requests := r.requests + [q]);
    RequestsKeep(r, r1.requests);
    ExecutedCount(r);
    CommittedGrow(r, HandleRequest(r, q)) by {
      HandleRequestKeeps(r, q);
    }
    if r.opNumber < r.executeNumber + 6 {
      CloseNumbered(r1);
    }
  }

  lemma HandleRequestPrimary(r: Replica, q: Request)
    requires LogInv(r) && PrimaryInv(r)
    ensures PrimaryInv(HandleRequest(r, q))
  {
    if Answered(r.clientTable, q) {
      SendIdle(r, SendReply(q.addr, q.clientId, r.clientTable[q.clientId]));
      IdleKeeps(r, HandleRequest(r, q));
    } else if IsPrimary(r) {
      AcceptKeeps(r, q);
    } else {
      IdleKeeps(r, HandleRequest(r, q));
    }
  }

  /** Executing after a new commit leaves room in the window for one more batch. */
  lemma ExecuteRoom(r: Replica, r1: Replica, k: nat, d: Digest)
    requires PrimaryInv(r) && LogInv(r1) && Grows(r, r1) && IsCommitted(r1, k, d) && !IsCommitted(r, k, d)
    requires r1.toCrypto == r.toCrypto && r1.opNumber == r.opNumber && r1.requests == r.requests
    ensures Numbered(Execute(r1)) && Execute(r1).requests == r.requests && Execute(r1).opNumber == r.opNumber
    ensures r.opNumber + 1 <= |CommittedPairs(Execute(r1))| + 6
  {
    ExecuteBatches(r1);
    ExecuteFrame(r1);
    ExecuteKeeps(r1);
    CommitCounted(r, r1, k, d);
    CommittedGrow(r1, Execute(r1));
  }

  /** After `Execute`, the primary closes one more batch if requests wait. */
  lemma CloseAfterExecute(r: Replica)
    requires LogInv(r) && Numbered(r) && r.opNumber + 1 <= |CommittedPairs(r)| + 6
    requires r.id != 0 ==> r.requests == [] && r.opNumber == 0
    ensures PrimaryInv(if IsPrimary(r) && r.requests != [] then CloseBatch(r) else r)
  {
    PrimaryIsZero(r);
    if IsPrimary(r) && r.requests != [] {
      CloseNumbered(r);
      CloseBatchKeeps(r);
      CommittedGrow(r, CloseBatch(r));
    }
  }

  lemma HandleCommitPrimary(r: Replica, c: Commit)
    requires LogInv(r) && PrimaryInv(r)
    ensures PrimaryInv(HandleCommit(r, c))
  {
    if c.viewNumber == r.viewNumber && !IsCommitted(r, c.opNumber, c.digest) {
      var r1 := CountCommit(r, c);
      CountCommitKeeps(r, c);
      if IsCommitted(r1, c.opNumber, c.digest) {
        ExecuteRoom(r, r1, c.opNumber, c.digest);
        ExecuteKeeps(r1);
        CloseAfterExecute(Execute(r1));
      } else {
        IdleKeeps(r, r1);
      }
    }
  }

  lemma PollPrimary(r: Replica, m: ToReplica)
    requires LogInv(r) && PrimaryInv(r) && Hashed(m)
    ensures PrimaryInv(Poll(r, m))
  {
    if !r.panicked {
      match m
      case ToRequest(q) => HandleRequestPrimary(r, q);
      case ToPrePrepare(pp, qs) =>
        ReceiveIdle(r, LogEntry(pp, qs));
        IdleKeeps(r, ReceivePrePrepare(r, LogEntry(pp, qs)));
      case ToPrepare(p) =>
        HandlePrepareIdle(r, p);
        IdleKeeps(r, HandlePrepare(r, p));
      case ToCommit(c) => HandleCommitPrimary(r, c);
    }
  }

  lemma {:induction false} ReachedPrimary(r: Replica, ms: seq<ToReplica>)
    requires Reached(r, ms)
    ensures PrimaryInv(r)
    decreases |ms|
  {
    if ms != [] {
      var r0 := ReachedBefore(r, ms);
      ReachedPrimary(r0, ms[..|ms| - 1]);
      ReachedKeeps(r0, ms[..|ms| - 1]);
      PollPrimary(r0, ms[|ms| - 1]);
    }
  }

  // ---------- Statements over whole runs ----------

  /** However commits arrive, at most six batches are sent beyond the committed certificates. */
  lemma InFlightBound(r: Replica, ms: seq<ToReplica>)
    requires Reached(r, ms)
    ensures r.opNumber <= |CommittedPairs(r)| + 6
  {
    ReachedPrimary(r, ms);
  }

  /** Requests wait only while the window of six is full. */
  lemma NoneWaitsBehindOpenWindow(r: Replica, ms: seq<ToReplica>)
    requires Reached(r, ms)
    ensures r.requests != [] ==> r.opNumber >= r.executeNumber + 6
  {
    ReachedPrimary(r, ms);
  }

  /** `r` takes `m` into its queue. */
  predicate Accepts(r: Replica, m: ToReplica) {
    !r.panicked && m.ToRequest? && !Answered(r.clientTable, m.request) && IsPrimary(r)
  }

  /** The requests accepted over a run, in order and with repeats. */
  function Accepted(r: Replica, ms: seq<ToReplica>): seq<Request>
    decreases |ms|
  {
    if ms == [] then []
    else
      var init, m := ms[..|ms| - 1], ms[|ms| - 1];
      Accepted(r, init) + if Accepts(PollAll(r, init), m) then [m.request] else []
  }

  /** Everything batched so far followed by everything waiting. */
  function Queued(r: Replica): seq<Request> {
    Flatten(Batches(r.toCrypto)) + r.requests
  }

  lemma CloseQueued(r: Replica)
    ensures Queued(CloseBatch(r)) == Queued(r)
  {
  }

  lemma PollQueued(r: Replica, m: ToReplica)
    requires LogInv(r) && Hashed(m)
    ensures Queued(Poll(r, m)) == Queued(r) + if Accepts(r, m) then [m.request] else []
  {
    if !r.panicked {
      match m
      case ToRequest(q) => HandleRequestQueued(r, q);
      case ToPrePrepare(pp, qs) => ReceiveIdle(r, LogEntry(pp, qs));
      case ToPrepare(p) => HandlePrepareIdle(r, p);
      case ToCommit(c) => HandleCommitQueued(r, c);
    }
  }

  lemma HandleRequestQueued(r: Replica, q: Request)
    ensures Queued(HandleRequest(r, q)) ==
            Queued(r) + if !Answered(r.clientTable, q) && IsPrimary(r) then [q] else []
  {
    if Answered(r.clientTable, q) {
      SendIdle(r, SendReply(q.addr, q.clientId, r.clientTable[q.clientId]));
    } else if IsPrimary(r) {
      var r1 := r.(requests := r.requests + [q]);
      assert Queued(r1) == Queued(r) + [q];
      CloseQueued(r1);
    }
  }

  lemma HandleCommitQueued(r: Replica, c: Commit)
    ensures Queued(HandleCommit(r, c)) == Queued(r)
  {
    var r1 := CountCommit(r, c);
    ExecuteBatches(r1);
    ExecuteFrame(r1);
    CloseQueued(Execute(r1));
  }

  /** Batching conserves requests: batches 1 to `opNumber` followed by the waiting requests are
      the accepted requests, in order and multiplicity, and batch `k` went out as op number `k`. */
  lemma {:induction false} BatchingConserves(id: nat, config: Config, respond: seq<Call> -> Bytes, ms: seq<ToReplica>)
    requires id < config.n && forall m :: m in ms ==> Hashed(m)
    ensures var r := PollAll(New(id, config, respond), ms);
            && Flatten(Batches(r.toCrypto)) + r.requests == Accepted(New(id, config, respond), ms)
            && |Batches(r.toCrypto)| == r.opNumber
            && forall v: nat, k: nat, qs :: SendPrePrepare(v, k, qs) in r.toCrypto ==>
                 1 <= k <= r.opNumber && Batches(r.toCrypto)[k - 1] == qs
    decreases |ms|
  {
    ReachedPrimary(PollAll(New(id, config, respond), ms), ms);
    if ms != [] {
      var init := ms[..|ms| - 1];
      BatchingConserves(id, config, respond, init);
      ReachedKeeps(PollAll(New(id, config, respond), init), init);
      PollQueued(PollAll(New(id, config, respond), init), ms[|ms| - 1]);
    }
  }
}
