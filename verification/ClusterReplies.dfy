/** What agreement means to a client: the answers of different correct replicas to one request are
    the same, with faulty replicas present, in the configurations in which logs agree and in no other. */
module ClusterReplies {
  import opened Messages
  import opened ReplicaModel
  import opened Cluster
  import opened Agreement
  import opened Equivocation
  import opened Service
  import opened ExecutionModel
  import opened ClusterRuns

  /** All replicas run the application they were started with. */
  lemma ApplicationKept(config: Config, faulty: set<nat>, respond: seq<Call> -> Bytes, s: State, i: nat)
    requires WellConfigured(config, faulty) && Reaches(Start(config, faulty, respond), s) && i < config.n
    ensures |s.replicas| == config.n && s.replicas[i].app.respond == respond
  {
    var s0 := Start(config, faulty, respond);
    assert s0 == Start(s0.config, s0.faulty, respond);
    var es :| s == After(s0, es);
    StartInv(s0);
    RunInv(s0, es);
    assert s0.replicas[i] == New(i, config, respond);
  }

  lemma SameApplication(s: State, i: nat, j: nat)
    requires Reachable(s) && i < s.config.n && j < s.config.n
    ensures |s.replicas| == s.config.n && s.replicas[i].app.respond == s.replicas[j].app.respond
  {
    var s0 :| Initial(s0) && Reaches(s0, s);
    var respond :| s0 == Start(s0.config, s0.faulty, respond);
    var es :| s == After(s0, es);
    RunConfig(s0, es);
    ApplicationKept(s0.config, s0.faulty, respond, s, i);
    ApplicationKept(s0.config, s0.faulty, respond, s, j);
  }

  lemma HistoryOfPrefix(a: Replica, b: Replica)
    requires a.executeNumber <= |a.log| && b.executeNumber <= |b.log| && ExecutedLog(a) <= ExecutedLog(b)
    requires a.app.respond == b.app.respond
    ensures ServiceOf(a).history <= ServiceOf(b).history
  {
    HistoryPrefix(a.app.respond, BatchesOf(ExecutedLog(a)), BatchesOf(ExecutedLog(b)));
  }

  ghost predicate Comparable<T(!new)>(a: seq<T>, b: seq<T>) {
    a <= b || b <= a
  }

  /** The executions of two correct replicas, and so the calls their applications have taken, are
      one a prefix of the other. */
  lemma CallsAgree(s: State, i: nat, j: nat)
    requires Reachable(s) && Guarded(s) && Correct(s, i) && Correct(s, j)
    ensures var a, b := s.replicas[i], s.replicas[j];
            && a.executeNumber <= |a.log| && b.executeNumber <= |b.log|
            && Comparable(ServiceOf(a).history, ServiceOf(b).history) && Comparable(a.app.calls, b.app.calls)
  {
    var a, b := s.replicas[i], s.replicas[j];
    ReachableReplica(s, i);
    ReachableReplica(s, j);
    SameApplication(s, i, j);
    ExecutionAgreement(s);
    assert LogsAgree(a, b);
    if ExecutedLog(a) <= ExecutedLog(b) {
      HistoryOfPrefix(a, b);
    } else {
      HistoryOfPrefix(b, a);
    }
  }

  ghost predicate SameResults(r: Replica, r': Replica) {
    forall a, b :: a in r.toCrypto && b in r'.toCrypto && SameRequest(a, b) ==> a.reply.result == b.reply.result
  }

  ghost predicate RepliesAgreed(s: State) {
    forall i: nat, j: nat :: Correct(s, i) && Correct(s, j) ==> SameResults(s.replicas[i], s.replicas[j])
  }

  lemma SameResultsSymmetric(r: Replica, r': Replica)
    requires SameResults(r, r')
    ensures SameResults(r', r)
  {
  }

  lemma RepliesOfPrefix(r: Replica, r': Replica)
    requires FoldInv(r) && FoldInv(r') && ServiceOf(r).history <= ServiceOf(r').history
    ensures SameResults(r, r')
  {
    ExecutedLater(ServiceOf(r), ServiceOf(r'));
    forall a, b | a in r.toCrypto && b in r'.toCrypto && SameRequest(a, b) ensures a.reply.result == b.reply.result {
      OneResult(ServiceOf(r'), a, b);
    }
  }

  lemma PairAgrees(s: State, i: nat, j: nat)
    requires Reachable(s) && Guarded(s) && Correct(s, i) && Correct(s, j)
    ensures SameResults(s.replicas[i], s.replicas[j])
  {
    var r, r' := s.replicas[i], s.replicas[j];
    ReachableReplica(s, i);
    ReachableReplica(s, j);
    CallsAgree(s, i, j);
    if ServiceOf(r).history <= ServiceOf(r').history {
      RepliesOfPrefix(r, r');
    } else {
      RepliesOfPrefix(r', r);
      SameResultsSymmetric(r', r);
    }
  }

  /** Replies of correct replicas to one request number of one client, first or resent, carry the
      same result. */
  lemma RepliesAgree(s: State)
    requires Reachable(s) && Guarded(s)
    ensures RepliesAgreed(s)
  {
    forall i: nat, j: nat | Correct(s, i) && Correct(s, j) ensures SameResults(s.replicas[i], s.replicas[j]) {
      PairAgrees(s, i, j);
    }
  }

  // ---------- The converse ----------

  lemma {:induction false} FirstIsSent(sent: seq<ToCrypto>)
    ensures forall e :: e in FirstReplies(sent) ==> e in sent
    decreases |sent|
  {
    if sent != [] {
      FirstIsSent(sent[..|sent| - 1]);
    }
  }

  lemma ExecutionAnswered(r: Replica, k: nat)
    requires r.executeNumber <= |r.log| && AnswersMatch(r, ServiceOf(r)) && k < |ServiceOf(r).history|
    ensures AnswersTo(r, ServiceOf(r).history)[k] in r.toCrypto
  {
    FirstIsSent(r.toCrypto);
  }

  lemma OneServed(respond: seq<Call> -> Bytes, q: Request)
    ensures ServeBatches(respond, [[q]]).history == [Execution(1, q, respond([Call(1, q.op)]))]
  {
    assert [[q]][..0] == [] && [q][..0] == [] && [] + [Call(1, q.op)] == [Call(1, q.op)];
    assert ServeBatches(respond, [[q]]) == ServeBatch(Begin(respond), 1, [q]) == Serve(Begin(respond), 1, q);
  }

  /** A replica that has executed `[q]` alone has answered it. */
  lemma OneAnswered(r: Replica, q: Request) returns (reply: Reply)
    requires r.log == [Entry([q])] && r.executeNumber == 1 && AnswersMatch(r, ServiceOf(r))
    ensures reply == Reply(q.requestNumber, r.app.respond([Call(1, q.op)]), r.id, r.viewNumber)
    ensures SendReply(q.addr, q.clientId, reply) in r.toCrypto
  {
    assert BatchesOf(r.log[..1]) == [[q]];
    OneServed(r.app.respond, q);
    ExecutionAnswered(r, 0);
    reply := AnswersTo(r, ServiceOf(r).history)[0].reply;
  }

  lemma TwoServed(respond: seq<Call> -> Bytes, q: Request, q': Request)
    requires q.clientId != q'.clientId
    ensures ServeBatches(respond, [[q, q']]).history ==
            [Execution(1, q, respond([Call(1, q.op)])), Execution(1, q', respond([Call(1, q.op), Call(1, q'.op)]))]
  {
    var s := Begin(respond);
    var s1 := Serve(s, 1, q);
    assert [] + [Call(1, q.op)] == [Call(1, q.op)];
    assert [Call(1, q.op)] + [Call(1, q'.op)] == [Call(1, q.op), Call(1, q'.op)];
    assert s1.history == [Execution(1, q, respond([Call(1, q.op)]))];
    assert [q, q'][..1] == [q] && [q][..0] == [];
    assert ServeBatch(s, 1, [q]) == Serve(ServeBatch(s, 1, []), 1, q) == s1;
    assert ServeBatch(s, 1, [q, q']) == Serve(s1, 1, q');
    assert [[q, q']][..0] == [] && ServeBatches(respond, [[q, q']]) == ServeBatch(s, 1, [q, q']);
  }

  /** A replica that has executed `[q, q']` alone has answered both. */
  lemma BothAnswered(r: Replica, q: Request, q': Request) returns (a: ToCrypto, a': ToCrypto)
    requires r.log == [Entry([q, q'])] && r.executeNumber == 1 && AnswersMatch(r, ServiceOf(r))
    requires q.clientId != q'.clientId
    ensures a in r.toCrypto && a' in r.toCrypto && a.SendReply? && a'.SendReply?
    ensures a.clientId == q.clientId && a.reply.requestNumber == q.requestNumber
    ensures a'.clientId == q'.clientId && a'.reply.requestNumber == q'.requestNumber
    ensures a.reply.result == r.app.respond([Call(1, q.op)])
    ensures a'.reply.result == r.app.respond([Call(1, q.op), Call(1, q'.op)])
  {
    assert BatchesOf(r.log[..1]) == [[q, q']];
    TwoServed(r.app.respond, q, q');
    ExecutionAnswered(r, 0);
    ExecutionAnswered(r, 1);
    a, a' := AnswersTo(r, ServiceOf(r).history)[0], AnswersTo(r, ServiceOf(r).history)[1];
  }

  /** A faulty primary with at least `f - 1` faulty replicas in all can make two correct replicas
      answer one request differently, even with batches of the same two requests: it orders them in
      two ways, and the application tells its first call from its second. */
  lemma ConflictingReplies(config: Config, faulty: set<nat>) returns (s: State)
    requires WellConfigured(config, faulty) && 0 in faulty && |faulty| + 1 >= config.f
    ensures s.config == config && s.faulty == faulty && Reachable(s) && !RepliesAgreed(s)
  {
    var respond: seq<Call> -> Bytes := calls => if |calls| == 1 then [1] else [];
    var q, q' := Request(0, 1, [], 0), Request(1, 1, [], 1);
    var x, y;
    s, x, y := BothExecuted(config, faulty, respond, [q, q'], [q', q]);
    ApplicationKept(config, faulty, respond, s, x);
    ApplicationKept(config, faulty, respond, s, y);
    ReachableReplica(s, x);
    ReachableReplica(s, y);
    var a, _ := BothAnswered(s.replicas[x], q, q');
    var _, b := BothAnswered(s.replicas[y], q', q);
    assert SameRequest(a, b) && !SameResults(s.replicas[x], s.replicas[y]);
  }

  /** The configurations in which the code guarantees one result per request, over all runs. */
  lemma RepliesAgreeExactly(config: Config, faulty: set<nat>)
    requires WellConfigured(config, faulty)
    ensures (forall s :: Reachable(s) && s.config == config && s.faulty == faulty ==> RepliesAgreed(s))
            <==> 0 !in faulty || |faulty| + 1 < config.f
  {
    if 0 !in faulty || |faulty| + 1 < config.f {
      forall s | Reachable(s) && s.config == config && s.faulty == faulty ensures RepliesAgreed(s) {
        RepliesAgree(s);
      }
    } else {
      var s := ConflictingReplies(config, faulty);
    }
  }
}
