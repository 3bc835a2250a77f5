/** Clients and replicas together over a network that may lose, repeat and reorder every message.
    The guarantees are those of worlds in which all replicas are correct. */
module EndToEnd {
  import opened Messages
  import opened ReplicaModel
  import opened Invariants
  import opened Cluster
  import opened Agreement
  import opened ClusterRuns
  import opened Service
  import opened ExecutionModel
  import opened Primary
  import C = PbftClient

  /** Client `c` has id `c` and receives replies at address `c`. */
  datatype World = World(cluster: State, clients: seq<C.Client>)

  datatype Event =
    | Invoke(client: nat, op: Bytes, now: nat)
    | PollClient(client: nat, now: nat, incoming: Option<Reply>, pick: nat)
    | TakeResult(client: nat)
    | DeliverToReplica(delivery: Delivery)

  function NewClients(m: nat, config: Config): seq<C.Client> {
    seq(m, c requires 0 <= c => C.New(c, c, config))
  }

  function Begin(m: nat, config: Config, faulty: set<nat>, respond: seq<Call> -> Bytes): World {
    World(Start(config, faulty, respond), NewClients(m, config))
  }

  /** Some client has sent `q`. */
  ghost predicate Genuine(w: World, q: Request) {
    exists c, dest :: 0 <= c < |w.clients| && (dest, q) in w.clients[c].sent
  }

  /** Some replica has sent `reply` to address `addr`. */
  ghost predicate SentTo(w: World, addr: nat, reply: Reply) {
    exists i, client :: 0 <= i < |w.cluster.replicas| &&
      SendReply(addr, client, reply) in w.cluster.replicas[i].toCrypto
  }

  /** Replies are not signed; here a faulty replica makes up replies under its own id only. */
  ghost predicate MayArrive(w: World, addr: nat, reply: Reply) {
    SentTo(w, addr, reply) || reply.replicaId in w.cluster.faulty
  }

  ghost predicate CanHappen(w: World, e: Event) {
    match e
    case Invoke(c, _, _) => c < |w.clients| && C.Valid(w.clients[c]) && w.clients[c].op.None?
    case PollClient(c, _, incoming, _) =>
      c < |w.clients| && C.Valid(w.clients[c]) && (incoming.Some? ==> MayArrive(w, w.clients[c].addr, incoming.value))
    case TakeResult(c) => c < |w.clients|
    case DeliverToReplica(d) => d.message.ToRequest? ==> Genuine(w, d.message.request) || w.cluster.faulty != {}
  }

  function SetClient(w: World, c: nat, client: C.Client): World
    requires c < |w.clients|
  {
    w.(clients := w.clients[c := client])
  }

  /** An event that cannot happen changes nothing. */
  ghost function Next(w: World, e: Event): World {
    if !CanHappen(w, e) then w
    else
      match e
      case Invoke(c, op, now) => SetClient(w, c, C.Invoke(w.clients[c], op, now))
      case PollClient(c, now, incoming, pick) => SetClient(w, c, C.Poll(w.clients[c], now, incoming, pick))
      case TakeResult(c) => SetClient(w, c, C.TakeResult(w.clients[c]).0)
      case DeliverToReplica(d) => w.(cluster := Step(w.cluster, d))
  }

  ghost function AfterAll(w: World, es: seq<Event>): World
    decreases |es|
  {
    if es == [] then w else Next(AfterAll(w, es[..|es| - 1]), es[|es| - 1])
  }

  // ---------- The agreed sequence ----------

  /** The primary's batches: the log every replica executes a prefix of. */
  ghost function AgreedBatches(w: World): seq<seq<Request>>
    requires |w.cluster.replicas| > 0
  {
    Batches(w.cluster.replicas[0].toCrypto)
  }

  /** The agreed batches run sequentially by one application. */
  ghost function Agreed(w: World): Service
    requires |w.cluster.replicas| > 0
  {
    ServeBatches(w.cluster.replicas[0].app.respond, AgreedBatches(w))
  }

  // ---------- Invariants ----------

  /** The number of requests client `c` has seen completed. */
  function Done(c: C.Client): int {
    if c.op.None? then c.requestNumber else c.requestNumber - 1
  }

  predicate Addressed(q: Request) {
    q.addr == q.clientId
  }

  /** What client `c` has sent: one operation per number, numbers up to the current one, the current
      one included, and everything to replica 0. */
  ghost predicate SentInv(c: C.Client, i: nat) {
    && c.id == i && c.addr == i && C.Valid(c)
    && (forall m :: m in c.sent ==> m.1.clientId == i && Addressed(m.1) && 1 <= m.1.requestNumber <= c.requestNumber)
    && (forall m, m' :: m in c.sent && m' in c.sent && m.1.requestNumber == m'.1.requestNumber ==> m.1 == m'.1)
    && (forall m :: m in c.sent && c.op.Some? && m.1.requestNumber == c.requestNumber ==> m.1.op == c.op.value)
    && c.viewNumber == 0 && (forall m :: m in c.sent ==> m.0 == 0)
    && (c.op.Some? ==> (0, C.Outstanding(c)) in c.sent)
  }

  ghost predicate ClientsInv(w: World) {
    forall i: nat :: i < |w.clients| ==> SentInv(w.clients[i], i)
  }

  ghost predicate RepliesAddressed(r: Replica) {
    forall e :: e in r.toCrypto && e.SendReply? ==> e.addr == e.clientId
  }

  ghost predicate ClusterInv(w: World) {
    && Reachable(w.cluster) && w.cluster.faulty == {} && |w.cluster.replicas| == w.cluster.config.n > 0
    && forall i :: 0 <= i < |w.cluster.replicas| ==>
         RepliesAddressed(w.cluster.replicas[i]) &&
         w.cluster.replicas[i].app.respond == w.cluster.replicas[0].app.respond
  }

  /** Everything the primary accepted was sent by a client, in closed-loop order. */
  ghost predicate QueueInv(w: World)
    requires |w.cluster.replicas| > 0
  {
    ClosedLoop(Queued(w.cluster.replicas[0])) && forall q :: q in Queued(w.cluster.replicas[0]) ==> Genuine(w, q)
  }

  /** What client `i` holds comes from the agreed service `s`, run on the requests `qs`. */
  ghost predicate Progress(s: Service, qs: seq<Request>, c: C.Client, i: nat) {
    && (forall r: nat :: 1 <= r <= Done(c) ==> Occurs(qs, i, r))
    && (c.op.Some? ==> forall j :: j in c.results ==> Executed(s, i, c.requestNumber, c.results[j]))
    && (c.committedResult.Some? ==> Executed(s, i, c.requestNumber, c.committedResult.value))
  }

  ghost predicate ProgressInv(w: World, i: nat)
    requires |w.cluster.replicas| > 0 && i < |w.clients|
  {
    Progress(Agreed(w), Flatten(AgreedBatches(w)), w.clients[i], i)
  }

  ghost predicate WorldInv(w: World) {
    && ClusterInv(w) && ClientsInv(w) && QueueInv(w)
    && forall i: nat :: i < |w.clients| ==> ProgressInv(w, i)
  }

  // ---------- Replies go to the address of the request they answer ----------

  ghost predicate EntriesAddressed(r: Replica) {
    forall e :: e in r.log ==> forall q :: q in e.requests ==> Addressed(q)
  }

  lemma ExecuteRequestAddressed(r: Replica, q: Request)
    requires RepliesAddressed(r) && Addressed(q)
    ensures RepliesAddressed(ExecuteRequest(r, q))
  {
  }

  lemma {:induction false} ExecuteRequestsAddressed(r: Replica, qs: seq<Request>)
    requires RepliesAddressed(r) && forall q :: q in qs ==> Addressed(q)
    ensures RepliesAddressed(ExecuteRequests(r, qs))
    decreases |qs|
  {
    if qs != [] {
      ExecuteRequestsAddressed(r, qs[..|qs| - 1]);
      ExecuteRequestAddressed(ExecuteRequests(r, qs[..|qs| - 1]), qs[|qs| - 1]);
    }
  }

  lemma {:induction false} ExecuteAddressed(r: Replica)
    requires RepliesAddressed(r) && EntriesAddressed(r)
    ensures RepliesAddressed(Execute(r))
    decreases |r.log| - r.executeNumber
  {
    if CanExecute(r) {
      var entry := r.log[r.executeNumber];
      assert entry in r.log;
      ExecuteRequestsAddressed(r.(executeNumber := r.executeNumber + 1), entry.requests);
      ExecuteAddressed(ExecuteEntry(r));
    }
  }

  lemma HandleCommitAddressed(r: Replica, c: Commit)
    requires RepliesAddressed(r) && EntriesAddressed(r)
    ensures RepliesAddressed(HandleCommit(r, c))
  {
    ExecuteAddressed(CountCommit(r, c));
  }

  lemma PollAddressed(r: Replica, m: ToReplica)
    requires RepliesAddressed(r) && EntriesAddressed(r)
    requires m.ToRequest? ==> Addressed(m.request)
    ensures RepliesAddressed(Poll(r, m))
  {
    match m
    case ToRequest(_) =>
    case ToPrePrepare(pp, qs) =>
      ReceiveExecutesNothing(r, LogEntry(pp, qs));
      FirstRepliesKept(r.toCrypto, ReceivePrePrepare(r, LogEntry(pp, qs)).toCrypto);
    case ToPrepare(p) =>
      PrepareExecutesNothing(r, p);
      FirstRepliesKept(r.toCrypto, HandlePrepare(r, p).toCrypto);
    case ToCommit(c) => HandleCommitAddressed(r, c);
  }

  // ---------- The agreed sequence grows ----------

  lemma {:induction false} BatchesPrefix(sent: seq<ToCrypto>, sent': seq<ToCrypto>)
    requires sent <= sent'
    ensures Batches(sent) <= Batches(sent')
    decreases |sent'|
  {
    if sent != sent' {
      var init := sent'[..|sent'| - 1];
      BatchesPrefix(sent, init);
      assert sent' == init + [sent'[|sent'| - 1]];
      BatchesAppend(init, sent'[|sent'| - 1]);
    }
  }

  lemma {:induction false} FlattenPrefix(bs: seq<seq<Request>>, bs': seq<seq<Request>>)
    requires bs <= bs'
    ensures Flatten(bs) <= Flatten(bs')
    decreases |bs'|
  {
    if bs != bs' {
      assert bs <= bs'[..|bs'| - 1];
      FlattenPrefix(bs, bs'[..|bs'| - 1]);
    }
  }

  lemma {:induction false} FlattenMember(bs: seq<seq<Request>>, k: nat, q: Request)
    requires k < |bs| && q in bs[k]
    ensures q in Flatten(bs)
    decreases |bs|
  {
    if k < |bs| - 1 {
      FlattenMember(bs[..|bs| - 1], k, q);
    }
  }

  /** Executions are of requests in the batches. */
  lemma {:induction false} ServeBatchRequests(s: Service, k: nat, qs: seq<Request>)
    ensures forall e :: e in ServeBatch(s, k, qs).history ==> e in s.history || e.request in qs
    decreases |qs|
  {
    if qs != [] {
      ServeBatchRequests(s, k, qs[..|qs| - 1]);
    }
  }

  lemma {:induction false} HistoryRequests(respond: seq<Call> -> Bytes, bs: seq<seq<Request>>)
    ensures forall e :: e in ServeBatches(respond, bs).history ==> e.request in Flatten(bs)
    decreases |bs|
  {
    if bs != [] {
      HistoryRequests(respond, bs[..|bs| - 1]);
      ServeBatchRequests(ServeBatches(respond, bs[..|bs| - 1]), |bs|, bs[|bs| - 1]);
    }
  }

  /** Whatever a replica has executed is a prefix of the agreed execution. */
  lemma ReplicaWithinAgreed(w: World, i: nat)
    requires ClusterInv(w) && i < |w.cluster.replicas|
    ensures var r := w.cluster.replicas[i];
            r.executeNumber <= |r.log| && ServiceOf(r).history <= Agreed(w).history
  {
    var r := w.cluster.replicas[i];
    ReachableReplica(w.cluster, i);
    assert Correct(w.cluster, i);
    EntriesAreBatches(w.cluster, i);
    var executed := BatchesOf(r.log[..r.executeNumber]);
    assert executed <= BatchesOf(r.log);
    HistoryPrefix(r.app.respond, executed, AgreedBatches(w));
    assert w.cluster.replicas[i].app.respond == w.cluster.replicas[0].app.respond;
  }

  /** A reply on its way to a client is the result of an agreed execution of that client's request. */
  lemma ReplyIsAgreed(w: World, c: nat, reply: Reply)
    requires ClusterInv(w) && SentTo(w, c, reply)
    ensures Executed(Agreed(w), c, reply.requestNumber, reply.result) && reply.viewNumber == 0
  {
    var i, client :| 0 <= i < |w.cluster.replicas| && SendReply(c, client, reply) in w.cluster.replicas[i].toCrypto;
    assert RepliesAddressed(w.cluster.replicas[i]);
    ReachableReplica(w.cluster, i);
    ReplicaWithinAgreed(w, i);
    ExecutedLater(ServiceOf(w.cluster.replicas[i]), Agreed(w));
  }

  lemma ExecutedOccurs(w: World, c: nat, r: nat, result: Bytes)
    requires |w.cluster.replicas| > 0 && Executed(Agreed(w), c, r, result)
    ensures Occurs(Flatten(AgreedBatches(w)), c, r)
  {
    HistoryRequests(w.cluster.replicas[0].app.respond, AgreedBatches(w));
    var e :| e in Agreed(w).history && IsRequest(e.request, c, r) && e.result == result;
  }

  // ---------- Client events ----------

  lemma ResendSent(c: C.Client, i: nat, now: nat)
    requires SentInv(c, i)
    ensures SentInv(C.Resend(c, now), i) && c.sent <= C.Resend(c, now).sent
  {
  }

  lemma PollSent(c: C.Client, i: nat, now: nat, incoming: Option<Reply>, pick: nat)
    requires SentInv(c, i) && (incoming.Some? ==> incoming.value.viewNumber == 0)
    ensures SentInv(C.Poll(c, now, incoming, pick), i) && c.sent <= C.Poll(c, now, incoming, pick).sent
  {
    ResendSent(c, i, now);
    C.PollValid(c, now, incoming, pick);
  }

  lemma GenuineKept(w: World, c: nat, client: C.Client)
    requires c < |w.clients| && w.clients[c].sent <= client.sent
    ensures forall q :: Genuine(w, q) ==> Genuine(SetClient(w, c, client), q)
  {
    var w' := SetClient(w, c, client);
    forall q | Genuine(w, q) ensures Genuine(w', q) {
      var i, dest :| 0 <= i < |w.clients| && (dest, q) in w.clients[i].sent;
      assert (dest, q) in w'.clients[i].sent;
    }
  }

  /** A client that lost nothing it had sent may move on its own. */
  lemma ClientMoveKeeps(w: World, c: nat, client: C.Client)
    requires WorldInv(w) && c < |w.clients| && w.clients[c].sent <= client.sent
    requires SentInv(client, c) && Progress(Agreed(w), Flatten(AgreedBatches(w)), client, c)
    ensures WorldInv(SetClient(w, c, client))
  {
    var w' := SetClient(w, c, client);
    GenuineKept(w, c, client);
    forall i: nat | i < |w'.clients| ensures SentInv(w'.clients[i], i) && ProgressInv(w', i) {
      assert i != c ==> SentInv(w.clients[i], i) && ProgressInv(w, i);
    }
  }

  lemma ReceiveProgress(s: Service, qs: seq<Request>, c: C.Client, i: nat, reply: Reply, pick: nat)
    requires Progress(s, qs, c, i)
    requires Executed(s, i, reply.requestNumber, reply.result) && Occurs(qs, i, reply.requestNumber)
    ensures Progress(s, qs, C.Receive(c, reply, pick), i)
  {
  }

  lemma ResendProgress(s: Service, qs: seq<Request>, c: C.Client, i: nat, now: nat)
    requires C.Valid(c) && Progress(s, qs, c, i)
    ensures Progress(s, qs, C.Resend(c, now), i)
  {
  }

  lemma PollProgress(w: World, c: nat, now: nat, incoming: Option<Reply>, pick: nat)
    requires WorldInv(w) && CanHappen(w, PollClient(c, now, incoming, pick))
    ensures Progress(Agreed(w), Flatten(AgreedBatches(w)), C.Poll(w.clients[c], now, incoming, pick), c)
  {
    var s, qs := Agreed(w), Flatten(AgreedBatches(w));
    assert SentInv(w.clients[c], c) && ProgressInv(w, c);
    ResendProgress(s, qs, w.clients[c], c, now);
    if incoming.Some? {
      var reply := incoming.value;
      ReplyIsAgreed(w, c, reply);
      ExecutedOccurs(w, c, reply.requestNumber, reply.result);
      ReceiveProgress(s, qs, C.Resend(w.clients[c], now), c, reply, pick);
    }
  }

  lemma PollClientKeeps(w: World, c: nat, now: nat, incoming: Option<Reply>, pick: nat)
    requires WorldInv(w) && CanHappen(w, PollClient(c, now, incoming, pick))
    ensures WorldInv(SetClient(w, c, C.Poll(w.clients[c], now, incoming, pick)))
  {
    assert SentInv(w.clients[c], c);
    if incoming.Some? {
      ReplyIsAgreed(w, c, incoming.value);
    }
    PollSent(w.clients[c], c, now, incoming, pick);
    PollProgress(w, c, now, incoming, pick);
    ClientMoveKeeps(w, c, C.Poll(w.clients[c], now, incoming, pick));
  }

  lemma InvokeKeeps(w: World, c: nat, op: Bytes, now: nat)
    requires WorldInv(w) && CanHappen(w, Invoke(c, op, now))
    ensures WorldInv(SetClient(w, c, C.Invoke(w.clients[c], op, now)))
  {
    assert SentInv(w.clients[c], c) && ProgressInv(w, c);
    ClientMoveKeeps(w, c, C.Invoke(w.clients[c], op, now));
  }

  lemma TakeResultKeeps(w: World, c: nat)
    requires WorldInv(w) && c < |w.clients|
    ensures WorldInv(SetClient(w, c, C.TakeResult(w.clients[c]).0))
  {
    assert SentInv(w.clients[c], c) && ProgressInv(w, c);
    ClientMoveKeeps(w, c, C.TakeResult(w.clients[c]).0);
  }

  // ---------- Deliveries to replicas ----------

  lemma LogsAddressed(w: World, i: nat)
    requires WorldInv(w) && i < |w.cluster.replicas|
    ensures EntriesAddressed(w.cluster.replicas[i])
  {
    var r := w.cluster.replicas[i];
    assert Correct(w.cluster, i);
    EntriesAreBatches(w.cluster, i);
    forall e, q | e in r.log && q in e.requests ensures Addressed(q) {
      var k :| 0 <= k < |r.log| && r.log[k] == e;
      assert AgreedBatches(w)[k] == BatchesOf(r.log)[k];
      FlattenMember(AgreedBatches(w), k, q);
      assert q in Queued(w.cluster.replicas[0]);
    }
  }

  lemma DeliverCluster(w: World, d: Delivery)
    requires WorldInv(w) && CanHappen(w, DeliverToReplica(d))
    ensures ClusterInv(Next(w, DeliverToReplica(d)))
    ensures forall i :: 0 <= i < |w.cluster.replicas| ==>
              Grows(w.cluster.replicas[i], Step(w.cluster, d).replicas[i])
  {
    var s' := Step(w.cluster, d);
    ReachableInv(w.cluster);
    StepInv(w.cluster, d);
    StepReachable(w.cluster, d);
    forall i | 0 <= i < |s'.replicas|
      ensures RepliesAddressed(s'.replicas[i]) && s'.replicas[i].app.respond == s'.replicas[0].app.respond
    {
      assert RepliesAddressed(w.cluster.replicas[i]);
      assert Grows(w.cluster.replicas[i], s'.replicas[i]) && Grows(w.cluster.replicas[0], s'.replicas[0]);
      if i == d.to && CanStep(w.cluster, d) {
        LogsAddressed(w, i);
        assert Member(w.cluster, i);
        PollAddressed(w.cluster.replicas[i], d.message);
      }
    }
  }

  lemma OccursLater(qs: seq<Request>, qs': seq<Request>)
    requires qs <= qs'
    ensures forall c: nat, r: nat :: Occurs(qs, c, r) ==> Occurs(qs', c, r)
  {
  }

  lemma DeliverProgress(w: World, w': World, i: nat)
    requires |w.cluster.replicas| > 0 && |w'.cluster.replicas| > 0 && w'.clients == w.clients
    requires Grows(w.cluster.replicas[0], w'.cluster.replicas[0]) && i < |w.clients| && ProgressInv(w, i)
    ensures ProgressInv(w', i)
  {
    var respond := w.cluster.replicas[0].app.respond;
    BatchesPrefix(w.cluster.replicas[0].toCrypto, w'.cluster.replicas[0].toCrypto);
    HistoryPrefix(respond, AgreedBatches(w), AgreedBatches(w'));
    FlattenPrefix(AgreedBatches(w), AgreedBatches(w'));
    ExecutedLater(Agreed(w), Agreed(w'));
    OccursLater(Flatten(AgreedBatches(w)), Flatten(AgreedBatches(w')));
  }

  /** A genuine request joins the queue in closed-loop order. */
  lemma JoinsInOrder(w: World, q: Request)
    requires WorldInv(w) && Genuine(w, q)
    ensures ClosedLoop(Queued(w.cluster.replicas[0]) + [q])
  {
    var qs := Queued(w.cluster.replicas[0]);
    var c := q.clientId;
    assert SentInv(w.clients[c], c) && ProgressInv(w, c);
    if q.requestNumber > 1 {
      assert Occurs(Flatten(AgreedBatches(w)), c, q.requestNumber - 1);
      OccursLater(Flatten(AgreedBatches(w)), qs);
    }
    forall i | 0 <= i < |qs + [q]|
      ensures var x := (qs + [q])[i];
              x.requestNumber >= 1 && (x.requestNumber > 1 ==> Occurs((qs + [q])[..i], x.clientId, x.requestNumber - 1))
    {
      assert (qs + [q])[..i] == if i < |qs| then qs[..i] else qs;
    }
  }

  /** A delivery leaves the primary's queue alone or appends the genuine request it brings. */
  lemma DeliverQueued(s: State, d: Delivery)
    requires Inv(s)
    ensures var qs, qs' := Queued(s.replicas[0]), Queued(Step(s, d).replicas[0]);
            qs' == qs || (d.message.ToRequest? && qs' == qs + [d.message.request])
  {
    if d.to == 0 && CanStep(s, d) {
      assert Member(s, 0);
      PollQueued(s.replicas[0], d.message);
    }
  }

  lemma DeliverQueue(w: World, d: Delivery)
    requires WorldInv(w) && CanHappen(w, DeliverToReplica(d))
    ensures |Step(w.cluster, d).replicas| > 0 && QueueInv(Next(w, DeliverToReplica(d)))
  {
    var w' := Next(w, DeliverToReplica(d));
    ReachableInv(w.cluster);
    DeliverQueued(w.cluster, d);
    if d.message.ToRequest? {
      JoinsInOrder(w, d.message.request);
    }
    forall q | q in Queued(w'.cluster.replicas[0]) ensures Genuine(w', q) {
      assert Genuine(w, q);
      var c, dest :| 0 <= c < |w.clients| && (dest, q) in w.clients[c].sent;
      assert (dest, q) in w'.clients[c].sent;
    }
  }

  lemma DeliverKeeps(w: World, d: Delivery)
    requires WorldInv(w) && CanHappen(w, DeliverToReplica(d))
    ensures WorldInv(Next(w, DeliverToReplica(d)))
  {
    var w' := Next(w, DeliverToReplica(d));
    DeliverCluster(w, d);
    DeliverQueue(w, d);
    forall i: nat | i < |w'.clients| ensures ProgressInv(w', i) {
      DeliverProgress(w, w', i);
    }
  }

  lemma NextKeeps(w: World, e: Event)
    requires WorldInv(w)
    ensures WorldInv(Next(w, e))
  {
    if CanHappen(w, e) {
      match e
      case Invoke(c, op, now) => InvokeKeeps(w, c, op, now);
      case PollClient(c, now, incoming, pick) => PollClientKeeps(w, c, now, incoming, pick);
      case TakeResult(c) => TakeResultKeeps(w, c);
      case DeliverToReplica(d) => DeliverKeeps(w, d);
    }
  }

  lemma BeginInv(m: nat, config: Config, respond: seq<Call> -> Bytes)
    requires WellConfigured(config, {})
    ensures WorldInv(Begin(m, config, {}, respond))
  {
    var w := Begin(m, config, {}, respond);
    assert w.cluster == Start(w.cluster.config, w.cluster.faulty, respond);
    ReachesSelf(w.cluster);
    assert Queued(w.cluster.replicas[0]) == [];
  }

  lemma {:induction false} AfterAllInv(m: nat, config: Config, respond: seq<Call> -> Bytes, es: seq<Event>)
    requires WellConfigured(config, {})
    ensures WorldInv(AfterAll(Begin(m, config, {}, respond), es))
    decreases |es|
  {
    if es == [] {
      BeginInv(m, config, respond);
    } else {
      AfterAllInv(m, config, respond, es[..|es| - 1]);
      NextKeeps(AfterAll(Begin(m, config, {}, respond), es[..|es| - 1]), es[|es| - 1]);
    }
  }

  /** Some events lead from new replicas and idle clients to `w`. */
  ghost predicate ReachableWorld(w: World) {
    exists m: nat, config, faulty, respond, es ::
      WellConfigured(config, faulty) && w == AfterAll(Begin(m, config, faulty, respond), es)
  }

  lemma {:induction false} SameFaulty(w: World, es: seq<Event>)
    ensures AfterAll(w, es).cluster.faulty == w.cluster.faulty && AfterAll(w, es).cluster.config == w.cluster.config
    decreases |es|
  {
    if es != [] {
      SameFaulty(w, es[..|es| - 1]);
    }
  }

  lemma ReachableWorldInv(w: World)
    requires ReachableWorld(w) && w.cluster.faulty == {}
    ensures WorldInv(w)
  {
    var m: nat, config, faulty, respond, es :|
      WellConfigured(config, faulty) && w == AfterAll(Begin(m, config, faulty, respond), es);
    SameFaulty(Begin(m, config, faulty, respond), es);
    AfterAllInv(m, config, respond, es);
  }

  // ---------- What clients get ----------

  /** `e` is the one execution of the current request of client `i`, as the client sent it. */
  ghost predicate ExecutionOf(w: World, i: nat, e: Execution)
    requires |w.cluster.replicas| > 0 && i < |w.clients|
  {
    && e in Agreed(w).history && IsRequest(e.request, i, w.clients[i].requestNumber)
    && (exists dest :: (dest, e.request) in w.clients[i].sent)
    && (forall x :: x in w.clients[i].sent && x.1.requestNumber == e.request.requestNumber ==> x.1 == e.request)
    && (forall x :: x in Agreed(w).history && IsRequest(x.request, i, e.request.requestNumber) ==> x == e)
  }

  /** Every result a client is given for its request is the result of the one execution of that
      very request when the agreed batches are run sequentially by one application. */
  lemma ResultIsAgreed(w: World, i: nat) returns (e: Execution)
    requires ReachableWorld(w) && w.cluster.faulty == {} && i < |w.clients| && w.clients[i].committedResult.Some?
    ensures |w.cluster.replicas| > 0 && ExecutionOf(w, i, e) && w.clients[i].committedResult == Some(e.result)
    ensures Sequential(w.cluster.replicas[0].app.respond, Agreed(w).history)
  {
    ReachableWorldInv(w);
    assert ProgressInv(w, i);
    var c := w.clients[i];
    e :| e in Agreed(w).history && IsRequest(e.request, i, c.requestNumber) && e.result == c.committedResult.value;
    ServeBatchesInv(w.cluster.replicas[0].app.respond, AgreedBatches(w));
    HistoryRequests(w.cluster.replicas[0].app.respond, AgreedBatches(w));
    assert e.request in Queued(w.cluster.replicas[0]);
    forall x | x in Agreed(w).history && IsRequest(x.request, i, e.request.requestNumber) ensures x == e {
      ExecutionUnique(Agreed(w), x, e);
    }
  }

  /** Every request a client has started is sent, and all it sends goes to the primary. */
  lemma SentToPrimary(w: World, i: nat)
    requires ReachableWorld(w) && w.cluster.faulty == {} && i < |w.clients|
    ensures forall m :: m in w.clients[i].sent ==> m.0 < |w.cluster.replicas| && IsPrimary(w.cluster.replicas[m.0])
    ensures w.clients[i].op.Some? ==>
              exists m :: m in w.clients[i].sent &&
                m.1 == Request(i, w.clients[i].requestNumber, w.clients[i].op.value, i)
  {
    ReachableWorldInv(w);
    assert SentInv(w.clients[i], i);
    ReachableInv(w.cluster);
    assert Member(w.cluster, 0);
    PrimaryIsZero(w.cluster.replicas[0]);
    if w.clients[i].op.Some? {
      assert (0, C.Outstanding(w.clients[i])) in w.clients[i].sent;
    }
  }

  /** Exactly-once in a closed loop: in the agreed execution the request numbers of each client are
      exactly 1, 2, ..., k, where k is the client's current number or one less, and the former when
      nothing is outstanding. Every replica has executed a prefix of that execution, without gaps. */
  lemma ExecutedExactlyOnce(w: World, i: nat) returns (k: nat)
    requires ReachableWorld(w) && w.cluster.faulty == {} && i < |w.clients|
    ensures |w.cluster.replicas| == w.cluster.config.n > 0 && Numbers(Agreed(w).history, i) == Count(k)
    ensures w.clients[i].requestNumber - 1 <= k <= w.clients[i].requestNumber
    ensures w.clients[i].op.None? ==> k == w.clients[i].requestNumber
    ensures forall j: nat :: j < w.cluster.config.n ==> ExecutesPrefix(w, j, i)
  {
    ReachableWorldInv(w);
    var r := w.cluster.replicas[0];
    k := LastNumber(Agreed(w), i);
    assert Flatten(AgreedBatches(w)) <= Queued(r);
    ClosedLoopPrefix(Flatten(AgreedBatches(w)), Queued(r));
    ServeBatchesGapless(r.app.respond, AgreedBatches(w));
    AgreedNumber(w, i);
    forall j: nat | j < w.cluster.config.n ensures ExecutesPrefix(w, j, i) {
      ReplicaExecutesPrefix(w, j, i);
    }
  }

  /** Replica `j` has executed a prefix of the agreed execution, and in it the numbers of client
      `i` have no gap either: `FoldInv` says that this prefix is what its application ran, what its
      client table records and what its replies answer. */
  ghost predicate ExecutesPrefix(w: World, j: nat, i: nat) {
    && 0 < |w.cluster.replicas| && j < |w.cluster.replicas|
    && var r := w.cluster.replicas[j];
       && FoldInv(r)
       && ServiceOf(r).history <= Agreed(w).history
       && Numbers(ServiceOf(r).history, i) == Count(LastNumber(ServiceOf(r), i))
  }

  lemma ReplicaExecutesPrefix(w: World, j: nat, i: nat)
    requires WorldInv(w) && j < |w.cluster.replicas|
    ensures ExecutesPrefix(w, j, i)
  {
    var r := w.cluster.replicas[j];
    ReachableReplica(w.cluster, j);
    ReplicaWithinAgreed(w, j);
    assert Correct(w.cluster, j);
    EntriesAreBatches(w.cluster, j);
    var executed := BatchesOf(r.log[..r.executeNumber]);
    assert executed <= BatchesOf(r.log);
    FlattenPrefix(executed, AgreedBatches(w));
    assert Flatten(executed) <= Queued(w.cluster.replicas[0]);
    ClosedLoopPrefix(Flatten(executed), Queued(w.cluster.replicas[0]));
    ServeBatchesGapless(r.app.respond, executed);
  }

  lemma AgreedNumber(w: World, i: nat)
    requires WorldInv(w) && i < |w.clients| && Gapless(Agreed(w), Flatten(AgreedBatches(w)))
    ensures Done(w.clients[i]) <= LastNumber(Agreed(w), i) <= w.clients[i].requestNumber
  {
    var s := Agreed(w);
    assert SentInv(w.clients[i], i) && ProgressInv(w, i);
    if Done(w.clients[i]) >= 1 {
      assert Occurs(Flatten(AgreedBatches(w)), i, Done(w.clients[i]));
    }
    if i in s.last {
      ServeBatchesInv(w.cluster.replicas[0].app.respond, AgreedBatches(w));
      HistoryRequests(w.cluster.replicas[0].app.respond, AgreedBatches(w));
      assert s.last[i].request in Queued(w.cluster.replicas[0]);
    }
  }
}
