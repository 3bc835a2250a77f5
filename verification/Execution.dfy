/** What a replica has executed is what the sequential service makes of its executed log. */
module ExecutionModel {
  import opened Messages
  import opened ReplicaModel
  import opened Invariants
  import opened Service

  function BatchesOf(log: seq<LogEntry>): (bs: seq<seq<Request>>)
    ensures |bs| == |log| && forall i :: 0 <= i < |log| ==> bs[i] == log[i].requests
  {
    seq(|log|, i requires 0 <= i < |log| => log[i].requests)
  }

  function ReplyFor(r: Replica, e: Execution): Reply {
    Reply(e.request.requestNumber, e.result, r.id, r.viewNumber)
  }

  ghost predicate TableMatches(r: Replica, s: Service) {
    && (forall c :: c in r.clientTable <==> c in s.last)
    && (forall c :: c in s.last ==> r.clientTable[c] == ReplyFor(r, s.last[c]))
  }

  /** Every reply sent, first or resent, is the result of an execution of that request, under the
      replica's own id and view. */
  ghost predicate RepliesMatch(r: Replica, s: Service) {
    forall e :: e in r.toCrypto && e.SendReply? ==>
      Executed(s, e.clientId, e.reply.requestNumber, e.reply.result) &&
      e.reply.replicaId == r.id && e.reply.viewNumber == r.viewNumber
  }

  ghost predicate Replied(sent: seq<ToCrypto>, c: nat, number: nat) {
    exists e :: e in sent && e.SendReply? && e.clientId == c && e.reply.requestNumber == number
  }

  /** The replies in `sent` without the resent ones: the first to each client and number. */
  ghost function FirstReplies(sent: seq<ToCrypto>): seq<ToCrypto>
    decreases |sent|
  {
    if sent == [] then []
    else
      var firsts, e := FirstReplies(sent[..|sent| - 1]), sent[|sent| - 1];
      if e.SendReply? && !Replied(firsts, e.clientId, e.reply.requestNumber) then firsts + [e] else firsts
  }

  /** The answer to each execution, in order. */
  function AnswersTo(r: Replica, history: seq<Execution>): (es: seq<ToCrypto>)
    ensures |es| == |history|
    ensures forall i :: 0 <= i < |es| ==>
              es[i] == SendReply(history[i].request.addr, history[i].request.clientId, ReplyFor(r, history[i]))
  {
    seq(|history|, i requires 0 <= i < |history| =>
          SendReply(history[i].request.addr, history[i].request.clientId, ReplyFor(r, history[i])))
  }

  ghost predicate AnswersMatch(r: Replica, s: Service) {
    FirstReplies(r.toCrypto) == AnswersTo(r, s.history)
  }

  ghost predicate Tracks(r: Replica, s: Service) {
    r.app == s.app && TableMatches(r, s) && RepliesMatch(r, s) && AnswersMatch(r, s) && ServiceInv(s)
  }

  /** The sequential service run on the executed part of the log. */
  ghost function ServiceOf(r: Replica): Service
    requires r.executeNumber <= |r.log|
  {
    ServeBatches(r.app.respond, BatchesOf(r.log[..r.executeNumber]))
  }

  ghost predicate FoldInv(r: Replica) {
    r.executeNumber <= |r.log| && Tracks(r, ServiceOf(r))
  }

  lemma FirstRepliesSent(sent: seq<ToCrypto>, e: ToCrypto)
    ensures FirstReplies(sent + [e]) ==
            if e.SendReply? && !Replied(FirstReplies(sent), e.clientId, e.reply.requestNumber)
            then FirstReplies(sent) + [e] else FirstReplies(sent)
  {
    assert (sent + [e])[..|sent|] == sent;
  }

  /** An execution is answered already exactly when the service has made it. */
  lemma AnsweredOnce(r: Replica, s: Service, q: Request)
    requires AnswersMatch(r, s)
    ensures Replied(FirstReplies(r.toCrypto), q.clientId, q.requestNumber) <==>
            exists x :: x in s.history && IsRequest(x.request, q.clientId, q.requestNumber)
  {
    var es := AnswersTo(r, s.history);
    if x :| x in s.history && IsRequest(x.request, q.clientId, q.requestNumber) {
      var i :| 0 <= i < |s.history| && s.history[i] == x;
      assert es[i] in es;
    }
  }

  lemma ReplySent(r: Replica, s: Service, addr: nat, x: Execution)
    requires RepliesMatch(r, s) && x in s.history
    ensures RepliesMatch(Send(r, SendReply(addr, x.request.clientId, ReplyFor(r, x))), s)
  {
  }

  lemma ExecuteRequestReplies(r: Replica, s: Service, q: Request)
    requires Tracks(r, s) && !Served(s, q)
    ensures RepliesMatch(ExecuteRequest(r, q), Serve(s, r.executeNumber, q))
  {
  }

  lemma NotReplied(r: Replica, s: Service, q: Request)
    requires AnswersMatch(r, s) && LastIsLatest(s) && !Served(s, q)
    ensures !Replied(FirstReplies(r.toCrypto), q.clientId, q.requestNumber)
  {
    AnsweredOnce(r, s, q);
  }

  lemma AnswersAppend(r: Replica, r': Replica, history: seq<Execution>, x: Execution)
    requires r'.id == r.id && r'.viewNumber == r.viewNumber
    ensures AnswersTo(r', history + [x]) ==
            AnswersTo(r, history) + [SendReply(x.request.addr, x.request.clientId, ReplyFor(r, x))]
  {
  }

  lemma ExecuteRequestAnswers(r: Replica, s: Service, q: Request)
    requires r.app == s.app && AnswersMatch(r, s) && LastIsLatest(s)
    requires !Answered(r.clientTable, q) && !Served(s, q)
    ensures AnswersMatch(ExecuteRequest(r, q), Serve(s, r.executeNumber, q))
  {
    var k := r.executeNumber;
    var x := Execution(k, q, s.app.Execute(k, q.op).1);
    NotReplied(r, s, q);
    FirstRepliesSent(r.toCrypto, SendReply(q.addr, q.clientId, ReplyFor(r, x)));
    AnswersAppend(r, ExecuteRequest(r, q), s.history, x);
  }

  lemma ExecuteRequestTable(r: Replica, s: Service, q: Request)
    requires r.app == s.app && TableMatches(r, s)
    ensures Answered(r.clientTable, q) <==> Served(s, q)
    ensures var r', s' := ExecuteRequest(r, q), Serve(s, r.executeNumber, q);
            TableMatches(r', s') && r'.app == s'.app && r'.app.respond == r.app.respond
  {
  }

  lemma ExecuteRequestTracks(r: Replica, s: Service, q: Request)
    requires Tracks(r, s)
    ensures Tracks(ExecuteRequest(r, q), Serve(s, r.executeNumber, q))
    ensures ExecuteRequest(r, q).app.respond == r.app.respond
  {
    ServeKeeps(s, r.executeNumber, q);
    ExecuteRequestTable(r, s, q);
    if !Answered(r.clientTable, q) {
      ExecuteRequestReplies(r, s, q);
      ExecuteRequestAnswers(r, s, q);
    }
  }

  lemma TracksAtNumber(r: Replica, s: Service, k: nat)
    requires Tracks(r, s)
    ensures Tracks(r.(executeNumber := k), s)
  {
  }

  lemma {:induction false} ExecuteRequestsTracks(r: Replica, s: Service, k: nat, qs: seq<Request>)
    requires Tracks(r, s)
    ensures var r' := ExecuteRequests(r.(executeNumber := k), qs);
            Tracks(r', ServeBatch(s, k, qs)) && r'.app.respond == r.app.respond
    decreases |qs|
  {
    if qs == [] {
      TracksAtNumber(r, s, k);
    } else {
      var init := qs[..|qs| - 1];
      ExecuteRequestsTracks(r, s, k, init);
      ExecuteRequestTracks(ExecuteRequests(r.(executeNumber := k), init), ServeBatch(s, k, init), qs[|qs| - 1]);
    }
  }

  lemma NextBatch(respond: seq<Call> -> Bytes, log: seq<LogEntry>, k: nat)
    requires k < |log|
    ensures ServeBatches(respond, BatchesOf(log[..k + 1])) ==
            ServeBatch(ServeBatches(respond, BatchesOf(log[..k])), k + 1, log[k].requests)
  {
    var bs, bs' := BatchesOf(log[..k]), BatchesOf(log[..k + 1]);
    assert bs' == bs + [log[k].requests];
    assert bs'[..|bs'| - 1] == bs;
  }

  lemma NextFolds(r: Replica, r': Replica)
    requires r.executeNumber < |r.log| && r'.executeNumber == r.executeNumber + 1
    requires r'.log == r.log && r'.app.respond == r.app.respond
    requires Tracks(r', ServeBatch(ServiceOf(r), r'.executeNumber, r.log[r.executeNumber].requests))
    ensures FoldInv(r')
  {
    NextBatch(r.app.respond, r.log, r.executeNumber);
  }

  lemma ExecuteEntryFolds(r: Replica) returns (r': Replica)
    requires FoldInv(r) && CanExecute(r)
    ensures r' == ExecuteEntry(r) && FoldInv(r')
  {
    r' := ExecuteEntry(r);
    ExecuteRequestsTracks(r, ServiceOf(r), r'.executeNumber, r.log[r.executeNumber].requests);
    NextFolds(r, r');
  }

  lemma {:induction false} ExecuteFolds(r: Replica)
    requires FoldInv(r)
    ensures FoldInv(Execute(r))
    decreases |r.log| - r.executeNumber
  {
    if CanExecute(r) {
      var r' := ExecuteEntryFolds(r);
      ExecuteFolds(r');
    }
  }

  /** From `sent` to `sent'` no reply was added. */
  ghost predicate NoReplies(sent: seq<ToCrypto>, sent': seq<ToCrypto>) {
    sent <= sent' && forall k :: |sent| <= k < |sent'| ==> !sent'[k].SendReply?
  }

  lemma {:induction false} FirstRepliesKept(sent: seq<ToCrypto>, sent': seq<ToCrypto>)
    requires NoReplies(sent, sent')
    ensures FirstReplies(sent') == FirstReplies(sent)
    ensures forall e :: e in sent' && e.SendReply? ==> e in sent
    decreases |sent'|
  {
    if sent != sent' {
      var init := sent'[..|sent'| - 1];
      FirstRepliesKept(sent, init);
      assert sent' == init + [sent'[|sent'| - 1]];
    }
  }

  /** `r'` has executed nothing since `r` and sent no reply. */
  ghost predicate NothingExecuted(r: Replica, r': Replica) {
    && r.log <= r'.log && r'.executeNumber == r.executeNumber && r'.app == r.app
    && r'.clientTable == r.clientTable && r'.id == r.id && r'.viewNumber == r.viewNumber
    && NoReplies(r.toCrypto, r'.toCrypto)
  }

  lemma TracksKept(r: Replica, r': Replica, s: Service)
    requires Tracks(r, s) && NothingExecuted(r, r')
    ensures Tracks(r', s)
  {
    FirstRepliesKept(r.toCrypto, r'.toCrypto);
  }

  lemma FoldKept(r: Replica, r': Replica)
    requires FoldInv(r) && NothingExecuted(r, r')
    ensures FoldInv(r')
  {
    TracksKept(r, r', ServiceOf(r));
    assert r'.log[..r.executeNumber] == r.log[..r.executeNumber];
    assert ServiceOf(r') == ServiceOf(r);
  }

  /** Answering an execution again, wherever the answer goes, is not a first reply. */
  lemma ResendAnswers(r: Replica, s: Service, addr: nat, x: Execution)
    requires AnswersMatch(r, s) && x in s.history
    ensures AnswersMatch(Send(r, SendReply(addr, x.request.clientId, ReplyFor(r, x))), s)
  {
    AnsweredOnce(r, s, x.request);
    FirstRepliesSent(r.toCrypto, SendReply(addr, x.request.clientId, ReplyFor(r, x)));
  }

  lemma AcceptExecutesNothing(r: Replica, q: Request)
    requires !Answered(r.clientTable, q)
    ensures NothingExecuted(r, HandleRequest(r, q))
  {
  }

  lemma HandlePrePrepareExecutesNothing(r: Replica, entry: LogEntry)
    ensures NothingExecuted(r, HandlePrePrepare(r, entry))
  {
  }

  lemma NothingTransitive(a: Replica, b: Replica, c: Replica)
    requires NothingExecuted(a, b) && NothingExecuted(b, c)
    ensures NothingExecuted(a, c)
  {
  }

  lemma {:induction false} DrainExecutesNothing(r: Replica)
    ensures NothingExecuted(r, Drain(r))
    decreases |r.reorder|
  {
    if CanDrain(r) {
      var k := NextEntry(r);
      HandlePrePrepareExecutesNothing(r.(reorder := r.reorder - {k}), r.reorder[k]);
      DrainExecutesNothing(DrainOne(r));
      NothingTransitive(r, DrainOne(r), Drain(r));
    }
  }

  lemma ReceiveExecutesNothing(r: Replica, entry: LogEntry)
    ensures NothingExecuted(r, ReceivePrePrepare(r, entry))
  {
    if entry.prePrepare.opNumber == NextEntry(r) {
      HandlePrePrepareExecutesNothing(r, entry);
      DrainExecutesNothing(HandlePrePrepare(r, entry));
      NothingTransitive(r, HandlePrePrepare(r, entry), ReceivePrePrepare(r, entry));
    }
  }

  lemma PrepareExecutesNothing(r: Replica, p: Prepare)
    ensures NothingExecuted(r, HandlePrepare(r, p))
  {
  }

  lemma CloseExecutesNothing(r: Replica)
    ensures NothingExecuted(r, CloseBatch(r))
  {
  }

  lemma AdvanceFolds(r: Replica)
    requires FoldInv(r)
    ensures FoldInv(Advance(r))
  {
    ExecuteFolds(r);
    CloseExecutesNothing(Execute(r));
    FoldKept(Execute(r), CloseBatch(Execute(r)));
  }

  lemma HandleCommitFolds(r: Replica, c: Commit)
    requires FoldInv(r)
    ensures FoldInv(HandleCommit(r, c))
  {
    FoldKept(r, CountCommit(r, c));
    AdvanceFolds(CountCommit(r, c));
  }

  lemma HandleRequestFolds(r: Replica, q: Request)
    requires FoldInv(r)
    ensures FoldInv(HandleRequest(r, q))
  {
    if Answered(r.clientTable, q) {
      var s := ServiceOf(r);
      var x := s.last[q.clientId];
      assert r.clientTable[q.clientId] == ReplyFor(r, x) && x.request.clientId == q.clientId;
      ReplySent(r, s, q.addr, x);
      ResendAnswers(r, s, q.addr, x);
    } else {
      AcceptExecutesNothing(r, q);
      FoldKept(r, HandleRequest(r, q));
    }
  }

  lemma PollFolds(r: Replica, m: ToReplica)
    requires FoldInv(r)
    ensures FoldInv(Poll(r, m))
  {
    if !r.panicked {
      match m
      case ToRequest(q) => HandleRequestFolds(r, q);
      case ToPrePrepare(pp, qs) =>
        ReceiveExecutesNothing(r, LogEntry(pp, qs));
        FoldKept(r, ReceivePrePrepare(r, LogEntry(pp, qs)));
      case ToPrepare(p) =>
        PrepareExecutesNothing(r, p);
        FoldKept(r, HandlePrepare(r, p));
      case ToCommit(c) => HandleCommitFolds(r, c);
    }
  }

  lemma NewFolds(id: nat, config: Config, respond: seq<Call> -> Bytes)
    ensures FoldInv(New(id, config, respond))
  {
  }

  lemma {:induction false} ReachedFolds(r: Replica, ms: seq<ToReplica>)
    requires Reached(r, ms)
    ensures FoldInv(r)
    decreases |ms|
  {
    if ms == [] {
      var id: nat, config: Config, respond: seq<Call> -> Bytes :|
        id < config.n && r == PollAll(New(id, config, respond), ms);
      NewFolds(id, config, respond);
    } else {
      var r0 := ReachedBefore(r, ms);
      ReachedFolds(r0, ms[..|ms| - 1]);
      PollFolds(r0, ms[|ms| - 1]);
    }
  }

  /** The state is a fold: after any messages whatever, the application and the client table of a
      replica are those of the sequential service run on `log[..executeNumber]`. */
  lemma StateIsFold(r: Replica, ms: seq<ToReplica>)
    requires Reached(r, ms)
    ensures r.executeNumber <= |r.log|
    ensures var s := ServeBatches(r.app.respond, BatchesOf(r.log[..r.executeNumber]));
            && r.app == s.app && r.clientTable.Keys == s.last.Keys
            && forall c :: c in s.last ==> r.clientTable[c] == ReplyFor(r, s.last[c])
  {
    ReachedFolds(r, ms);
  }

  /** At most once, of what the replica itself did: over any run its application has taken exactly
      the calls of a history in which each client's request numbers strictly increase, and
      without the resent ones its replies are the answers to that history, in order. */
  lemma AtMostOnce(r: Replica, ms: seq<ToReplica>) returns (history: seq<Execution>)
    requires Reached(r, ms)
    ensures r.app.calls == CallsOf(history) && Increasing(history)
    ensures FirstReplies(r.toCrypto) == AnswersTo(r, history)
    ensures r.executeNumber <= |r.log| && history == ServiceOf(r).history
  {
    ReachedFolds(r, ms);
    history := ServiceOf(r).history;
  }

  /** `a` and `b` answer the same request number of the same client. */
  predicate SameRequest(a: ToCrypto, b: ToCrypto) {
    a.SendReply? && b.SendReply? && a.clientId == b.clientId && a.reply.requestNumber == b.reply.requestNumber
  }

  lemma OneResult(s: Service, a: ToCrypto, b: ToCrypto)
    requires ServiceInv(s) && SameRequest(a, b)
    requires Executed(s, a.clientId, a.reply.requestNumber, a.reply.result)
    requires Executed(s, b.clientId, b.reply.requestNumber, b.reply.result)
    ensures a.reply.result == b.reply.result
  {
    var x :| x in s.history && IsRequest(x.request, a.clientId, a.reply.requestNumber) && x.result == a.reply.result;
    var y :| y in s.history && IsRequest(y.request, b.clientId, b.reply.requestNumber) && y.result == b.reply.result;
    ExecutionUnique(s, x, y);
  }

  /** Whatever a replica sends over a run, two replies to one request number of one client, first or
      resent, carry the same result. */
  lemma RepliesStable(r: Replica, ms: seq<ToReplica>, a: ToCrypto, b: ToCrypto)
    requires Reached(r, ms) && a in r.toCrypto && b in r.toCrypto && SameRequest(a, b)
    ensures a.reply.result == b.reply.result
  {
    ReachedFolds(r, ms);
    OneResult(ServiceOf(r), a, b);
  }
}
