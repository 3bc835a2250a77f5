/** Clients when some replica is faulty. A client compares no results: of the `f + 1` answers it
    waits for it takes any one. So a single faulty replica can have its own result accepted. */
module ForgedReply {
  import opened Messages
  import opened Time
  import opened ReplicaModel
  import opened Invariants
  import opened Cluster
  import opened Agreement
  import opened Equivocation
  import opened VoteKinds
  import opened Service
  import opened ExecutionModel
  import opened ClusterRuns
  import opened ClusterReplies
  import opened EndToEnd
  import C = PbftClient

  /** The result that client `i` holds is the one computed by every correct replica that has
      executed its current request. */
  ghost predicate ResultMatches(w: World, i: nat, j: nat)
    requires i < |w.clients| && Correct(w.cluster, j)
  {
    var r := w.cluster.replicas[j];
    w.clients[i].committedResult.Some? && r.executeNumber <= |r.log| ==>
      forall result :: Executed(ServiceOf(r), i, w.clients[i].requestNumber, result) ==>
        result == w.clients[i].committedResult.value
  }

  ghost predicate ResultsMatch(w: World) {
    forall i: nat, j: nat :: i < |w.clients| && Correct(w.cluster, j) ==> ResultMatches(w, i, j)
  }

  // ---------- Without faulty replicas ----------

  lemma AgreedMatches(w: World, i: nat, j: nat)
    requires ReachableWorld(w) && w.cluster.faulty == {} && i < |w.clients| && Correct(w.cluster, j)
    ensures ResultMatches(w, i, j)
  {
    ReachableWorldInv(w);
    if w.clients[i].committedResult.Some? {
      var r := w.cluster.replicas[j];
      var e := ResultIsAgreed(w, i);
      ReplicaWithinAgreed(w, j);
      forall result | Executed(ServiceOf(r), i, w.clients[i].requestNumber, result) ensures result == e.result {
        var x :| x in ServiceOf(r).history && IsRequest(x.request, i, w.clients[i].requestNumber) && x.result == result;
        assert x in Agreed(w).history;
      }
    }
  }

  // ---------- With a faulty replica ----------

  lemma ReachNext(w: World, e: Event)
    requires ReachableWorld(w)
    ensures ReachableWorld(Next(w, e))
  {
    var m: nat, config, faulty, respond, es :|
      WellConfigured(config, faulty) && w == AfterAll(EndToEnd.Begin(m, config, faulty, respond), es);
    assert (es + [e])[..|es|] == es;
    assert Next(w, e) == AfterAll(EndToEnd.Begin(m, config, faulty, respond), es + [e]);
  }

  /** With a faulty replica about, the cluster may take any of its own runs. */
  lemma {:induction false} ReachRun(w: World, es: seq<Delivery>)
    requires ReachableWorld(w) && w.cluster.faulty != {}
    ensures ReachableWorld(w.(cluster := After(w.cluster, es)))
    decreases |es|
  {
    if es != [] {
      var init, d := es[..|es| - 1], es[|es| - 1];
      ReachRun(w, init);
      RunConfig(w.cluster, init);
      ReachNext(w.(cluster := After(w.cluster, init)), DeliverToReplica(d));
    } else {
      assert w.(cluster := After(w.cluster, es)) == w;
    }
  }

  /** The client waits for its first request, with answers from `ids`. */
  ghost predicate Waiting(c: C.Client, config: Config, ids: set<nat>) {
    && c.addr == 0 && c.config == config && C.Valid(c) && c.op.Some? && c.requestNumber == 1
    && c.resendInstant == At(C.RESEND_AFTER) && c.results.Keys == ids
  }

  /** Replica `j` has sent the client an answer. */
  ghost predicate Answering(w: World, j: nat) {
    exists reply :: SentTo(w, 0, reply) && reply.requestNumber == 1 && reply.replicaId == j
  }

  lemma OneMore(c: C.Client, config: Config, ids: set<nat>, reply: Reply, pick: nat)
    requires Waiting(c, config, ids) && reply.requestNumber == 1 && reply.replicaId !in ids
    ensures |ids| < config.f ==> Waiting(C.Poll(c, 0, Some(reply), pick), config, ids + {reply.replicaId})
    ensures |ids| == config.f && pick == reply.replicaId ==>
              C.Poll(c, 0, Some(reply), pick).committedResult == Some(reply.result) &&
              C.Poll(c, 0, Some(reply), pick).requestNumber == 1
  {
    var results := c.results[reply.replicaId := reply.result];
    assert |c.results| == |ids| by { assert |c.results| == |c.results.Keys|; }
    assert results.Keys == ids + {reply.replicaId};
    assert |results| == |results.Keys| == |ids| + 1;
  }

  /** The client of `w` waits, with answers from `ids`. */
  ghost predicate OneWaiting(w: World, ids: set<nat>) {
    ReachableWorld(w) && |w.clients| == 1 && Waiting(w.clients[0], w.cluster.config, ids)
  }

  lemma TakeAnswer(w: World, ids: set<nat>, j: nat) returns (w': World)
    requires OneWaiting(w, ids) && j !in ids && |ids| < w.cluster.config.f && Answering(w, j)
    ensures OneWaiting(w', ids + {j}) && w'.cluster == w.cluster
  {
    var reply :| SentTo(w, 0, reply) && reply.requestNumber == 1 && reply.replicaId == j;
    OneMore(w.clients[0], w.cluster.config, ids, reply, 0);
    w' := Next(w, PollClient(0, 0, Some(reply), 0));
    ReachNext(w, PollClient(0, 0, Some(reply), 0));
  }

  lemma AnsweringStays(w: World, w': World, js: set<nat>)
    requires w'.cluster == w.cluster && forall j :: j in js ==> Answering(w, j)
    ensures forall j :: j in js ==> Answering(w', j)
  {
    forall j | j in js ensures Answering(w', j) {
      var reply :| SentTo(w, 0, reply) && reply.requestNumber == 1 && reply.replicaId == j;
      assert SentTo(w', 0, reply);
    }
  }

  /** The answers of `more` reach the client too. */
  lemma {:induction false} TakeAnswers(w: World, ids: set<nat>, more: set<nat>) returns (w': World)
    requires OneWaiting(w, ids) && forall j :: j in more ==> Answering(w, j)
    requires ids !! more && |ids| + |more| <= w.cluster.config.f
    ensures OneWaiting(w', ids + more) && w'.cluster == w.cluster
    decreases |more|
  {
    if more == {} {
      w' := w;
      assert ids + more == ids;
    } else {
      var j :| j in more;
      var w1 := TakeAnswer(w, ids, j);
      AnsweringStays(w, w1, more - {j});
      w' := TakeAnswers(w1, ids + {j}, more - {j});
      assert ids + {j} + (more - {j}) == ids + more;
    }
  }

  /** The last answer comes from a faulty replica and is the one taken. */
  lemma TakeForged(w: World, ids: set<nat>, z: nat, result: Bytes) returns (w': World)
    requires OneWaiting(w, ids) && |ids| == w.cluster.config.f && z in w.cluster.faulty && z !in ids
    ensures ReachableWorld(w') && w'.cluster == w.cluster && |w'.clients| == 1
    ensures w'.clients[0].committedResult == Some(result) && w'.clients[0].requestNumber == 1
  {
    var forged := Reply(1, result, z, 0);
    OneMore(w.clients[0], w.cluster.config, ids, forged, z);
    w' := Next(w, PollClient(0, 0, Some(forged), z));
    ReachNext(w, PollClient(0, 0, Some(forged), z));
  }

  // ---------- The run ----------

  /** Replicas that have executed the request of the client at address 0 have answered it. */
  lemma AllAnswering(w: World, xs: set<nat>, q: Request)
    requires Reachable(w.cluster) && AllExecuted(w.cluster, xs, [q]) && q == Request(0, 1, [], 0)
    ensures forall j :: j in xs ==> Answering(w, j)
  {
    forall j | j in xs ensures Answering(w, j) {
      var r := w.cluster.replicas[j];
      ReachableReplica(w.cluster, j);
      CorrectReplica(w.cluster, j);
      var reply := OneAnswered(r, q);
      assert SentTo(w, 0, reply);
    }
  }

  /** A client has sent its first request, and `f` correct replicas have executed and answered it. */
  lemma AnswersOut(config: Config, faulty: set<nat>) returns (w: World, xs: set<nat>)
    requires WellConfigured(config, faulty) && faulty != {}
    ensures ReachableWorld(w) && w.cluster.config == config && w.cluster.faulty == faulty && Reachable(w.cluster)
    ensures |xs| == config.f && AllExecuted(w.cluster, xs, [Request(0, 1, [], 0)])
    ensures forall j :: j in xs ==> Answering(w, j) && w.cluster.replicas[j].app.respond([Call(1, [])]) == []
    ensures OneWaiting(w, {})
  {
    var respond: seq<Call> -> Bytes := _ => [];
    var w0 := EndToEnd.Begin(1, config, faulty, respond);
    assert w0 == AfterAll(w0, []);
    var w1 := Next(w0, Invoke(0, [], 0));
    ReachNext(w0, Invoke(0, [], 0));
    var s;
    s, xs := SomeExecute(config, faulty, respond, Request(0, 1, [], 0), config.f);
    var es :| s == After(w1.cluster, es);
    ReachRun(w1, es);
    w := w1.(cluster := s);
    AllAnswering(w, xs, Request(0, 1, [], 0));
    forall j | j in xs ensures s.replicas[j].app.respond == respond {
      ApplicationKept(config, faulty, respond, s, j);
    }
  }

  /** With a faulty replica, the primary or not, a client can be given a result although a correct
      replica that executed and answered its request computed another. */
  lemma WrongResult(config: Config, faulty: set<nat>) returns (w: World)
    requires WellConfigured(config, faulty) && faulty != {}
    ensures ReachableWorld(w) && w.cluster.config == config && w.cluster.faulty == faulty && !ResultsMatch(w)
  {
    var w1, xs := AnswersOut(config, faulty);
    var w2 := TakeAnswers(w1, {}, xs);
    assert {} + xs == xs;
    var z :| z in faulty;
    w := TakeForged(w2, xs, z, [1]);
    var j :| j in xs;
    ComputedOther(w, j, Request(0, 1, [], 0));
  }

  /** The configurations in which every result given to a client, in all runs, is the one computed
      by the correct replicas that executed the request. */
  lemma ResultsMatchExactly(config: Config, faulty: set<nat>)
    requires WellConfigured(config, faulty)
    ensures (forall w :: ReachableWorld(w) && w.cluster.config == config && w.cluster.faulty == faulty ==>
               ResultsMatch(w))
            <==> faulty == {}
  {
    if faulty == {} {
      forall w, i: nat, j: nat | ReachableWorld(w) && w.cluster.faulty == {} && i < |w.clients| && Correct(w.cluster, j)
        ensures ResultMatches(w, i, j)
      {
        AgreedMatches(w, i, j);
      }
    } else {
      var w := WrongResult(config, faulty);
    }
  }

  lemma ComputedOther(w: World, j: nat, q: Request)
    requires Reachable(w.cluster) && AllExecuted(w.cluster, {j}, [q]) && q == Request(0, 1, [], 0)
    requires |w.clients| == 1 && w.clients[0].requestNumber == 1 && w.clients[0].committedResult == Some([1])
    requires w.cluster.replicas[j].app.respond([Call(1, [])]) == []
    ensures !ResultsMatch(w)
  {
    var r := w.cluster.replicas[j];
    assert Correct(w.cluster, j);
    ReachableReplica(w.cluster, j);
    assert BatchesOf(r.log[..1]) == [[q]];
    OneServed(r.app.respond, q);
    var x := ServiceOf(r).history[0];
    assert Executed(ServiceOf(r), 0, 1, []) by { assert x in ServiceOf(r).history && IsRequest(x.request, 0, 1); }
    assert !ResultMatches(w, 0, j);
  }
}
