/** Every replica of a reachable cluster is where some sequence of messages takes a new replica,
    so what holds at one replica over all runs holds in the cluster. */
module ClusterRuns {
  import opened Messages
  import opened ReplicaModel
  import opened Invariants
  import opened Cluster
  import opened Agreement
  import opened ExecutionModel
  import opened Primary

  /** The messages that `es` brings to replica `i`. */
  function Taken(s: State, es: seq<Delivery>, i: nat): seq<ToReplica>
    decreases |es|
  {
    if es == [] then []
    else
      var e := es[|es| - 1];
      Taken(s, es[..|es| - 1], i) + if e.to == i && CanStep(After(s, es[..|es| - 1]), e) then [e.message] else []
  }

  lemma StepIsLocal(s: State, e: Delivery, i: nat)
    requires |s.replicas| == s.config.n && i < s.config.n
    ensures |Step(s, e).replicas| == s.config.n
    ensures Step(s, e).replicas[i] ==
            if e.to == i && CanStep(s, e) then Poll(s.replicas[i], e.message) else s.replicas[i]
    ensures CanStep(s, e) ==> Hashed(e.message)
  {
  }

  lemma PollAllAppend(r: Replica, ms: seq<ToReplica>, m: ToReplica)
    ensures PollAll(r, ms + [m]) == Poll(PollAll(r, ms), m)
  {
    assert (ms + [m])[..|ms|] == ms;
  }

  lemma {:induction false} RunIsLocal(s: State, es: seq<Delivery>, i: nat)
    requires |s.replicas| == s.config.n && i < s.config.n
    ensures After(s, es).config == s.config && |After(s, es).replicas| == s.config.n
    ensures After(s, es).replicas[i] == PollAll(s.replicas[i], Taken(s, es, i))
    ensures forall m :: m in Taken(s, es, i) ==> Hashed(m)
    decreases |es|
  {
    if es != [] {
      var init, e := es[..|es| - 1], es[|es| - 1];
      RunIsLocal(s, init, i);
      StepIsLocal(After(s, init), e, i);
      PollAllAppend(s.replicas[i], Taken(s, init, i), e.message);
      assert Taken(s, init, i) + [] == Taken(s, init, i);
    }
  }

  lemma ReplicaReached(s: State, i: nat) returns (ms: seq<ToReplica>)
    requires Reachable(s) && i < s.config.n
    ensures |s.replicas| == s.config.n && Reached(s.replicas[i], ms)
  {
    var s0 :| Initial(s0) && Reaches(s0, s);
    var es :| s == After(s0, es);
    RunConfig(s0, es);
    RunIsLocal(s0, es, i);
    ms := Taken(s0, es, i);
    var respond :| s0 == Start(s0.config, s0.faulty, respond);
    assert s0.replicas[i] == New(i, s0.config, respond);
  }

  lemma ReachableReplica(s: State, i: nat)
    requires Reachable(s) && i < s.config.n
    ensures |s.replicas| == s.config.n
    ensures LogInv(s.replicas[i]) && FoldInv(s.replicas[i]) && PrimaryInv(s.replicas[i])
  {
    var ms := ReplicaReached(s, i);
    ReachedKeeps(s.replicas[i], ms);
    ReachedFolds(s.replicas[i], ms);
    ReachedPrimary(s.replicas[i], ms);
  }

  lemma EntryIsBatch(s: State, i: nat, k: nat)
    requires Reachable(s) && Correct(s, i) && 0 !in s.faulty && HasEntry(s.replicas[i].log, k)
    ensures |s.replicas| > 0
    ensures var bs := Batches(s.replicas[0].toCrypto); k <= |bs| && s.replicas[i].log[k - 1].requests == bs[k - 1]
  {
    ReachableInv(s);
    ReachableReplica(s, 0);
    EntryIsOwn(s, i, k);
  }

  /** With a correct primary, entry `k` of any correct replica is exactly the primary's batch `k`. */
  lemma EntriesAreBatches(s: State, i: nat)
    requires Reachable(s) && Correct(s, i) && 0 !in s.faulty
    ensures BatchesOf(s.replicas[i].log) <= Batches(s.replicas[0].toCrypto)
  {
    ReachableInv(s);
    var log, bs := s.replicas[i].log, Batches(s.replicas[0].toCrypto);
    if log != [] {
      EntryIsBatch(s, i, |log|);
    }
    forall k | 0 <= k < |log| ensures k < |bs| && BatchesOf(log)[k] == bs[k] {
      EntryIsBatch(s, i, k + 1);
    }
  }
}
