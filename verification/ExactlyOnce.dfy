/** Clients and server over a network that may lose, repeat and reorder every message. */
module ExactlyOnce {
  import opened Messages
  import opened Unreplicated
  import opened Service

  /** Client `c` has id `c` and receives replies at address `c`. */
  datatype World = World(server: Server, clients: seq<Client>)

  datatype Event =
    | InvokeClient(client: nat, op: Bytes, now: nat)
    | PollClient(client: nat, now: nat, incoming: Option<Reply>)
    | TakeFrom(client: nat)
    | DeliverRequest(request: Request)

  function Setup(m: nat, respond: seq<Call> -> Bytes): World {
    World(NewServer(respond), seq(m, c requires 0 <= c => NewClient(c, c)))
  }

  ghost predicate Genuine(w: World, q: Request) {
    exists c: nat :: c < |w.clients| && q in w.clients[c].sent
  }

  ghost predicate CanHappen(w: World, e: Event) {
    match e
    case InvokeClient(c, _, _) => c < |w.clients| && Valid(w.clients[c]) && w.clients[c].op.None?
    case PollClient(c, _, incoming) =>
      c < |w.clients| && Valid(w.clients[c]) &&
      (incoming.Some? ==> (w.clients[c].addr, incoming.value) in w.server.toEffect)
    case TakeFrom(c) => c < |w.clients|
    case DeliverRequest(q) => Genuine(w, q)
  }

  function SetClient(w: World, c: nat, client: Client): World
    requires c < |w.clients|
  {
    w.(clients := w.clients[c := client])
  }

  /** An event that cannot happen changes nothing. */
  ghost function Next(w: World, e: Event): World {
    if !CanHappen(w, e) then w
    else
      match e
      case InvokeClient(c, op, now) => SetClient(w, c, Invoke(w.clients[c], op, now))
      case PollClient(c, now, incoming) => SetClient(w, c, Poll(w.clients[c], now, incoming))
      case TakeFrom(c) => SetClient(w, c, TakeResult(w.clients[c]).0)
      case DeliverRequest(q) => w.(server := HandleRequest(w.server, q))
  }

  ghost function AfterAll(w: World, es: seq<Event>): World
    decreases |es|
  {
    if es == [] then w else Next(AfterAll(w, es[..|es| - 1]), es[|es| - 1])
  }

  // ---------- The server against the sequential service ----------

  /** The log run by the sequential service, entry `i` at op number `i`, counting from 1. */
  function Replay(respond: seq<Call> -> Bytes, log: seq<Request>): Service
    decreases |log|
  {
    if log == [] then Begin(respond) else Serve(Replay(respond, log[..|log| - 1]), |log|, log[|log| - 1])
  }

  ghost function ServiceOf(s: Server): Service {
    Replay(s.app.respond, s.log)
  }

  ghost predicate Repeats(v: Service, log: seq<Request>) {
    |v.history| == |log| &&
    forall i :: 0 <= i < |log| ==> v.history[i].request == log[i] && v.history[i].opNumber == i + 1
  }

  ghost predicate TableMatches(s: Server, v: Service) {
    && (forall c :: c in s.clientTable <==> c in v.last)
    && (forall c :: c in v.last ==>
          s.clientTable[c] == Reply(v.last[c].request.requestNumber, v.last[c].result, 0, 0))
  }

  ghost predicate Tracks(s: Server, v: Service) {
    s.app == v.app && s.opNumber == |s.log| && Repeats(v, s.log) && TableMatches(s, v)
  }

  ghost predicate ServerInv(s: Server) {
    Tracks(s, ServiceOf(s))
  }

  ghost predicate RepliesMatch(s: Server, v: Service) {
    forall m :: m in s.toEffect ==> Executed(v, m.0, m.1.requestNumber, m.1.result)
  }

  lemma {:induction false} ReplayInv(respond: seq<Call> -> Bytes, log: seq<Request>)
    ensures ServiceInv(Replay(respond, log))
    decreases |log|
  {
    if log != [] {
      ReplayInv(respond, log[..|log| - 1]);
      ServeKeeps(Replay(respond, log[..|log| - 1]), |log|, log[|log| - 1]);
    }
  }

  /** The server moves with the service, and answers exactly what the service has served. */
  lemma HandleRequestTracks(s: Server, q: Request)
    requires ServerInv(s)
    ensures ServerInv(HandleRequest(s, q))
    ensures Answered(s.clientTable, q) <==> Served(ServiceOf(s), q)
    ensures ServiceOf(HandleRequest(s, q)) ==
            if Served(ServiceOf(s), q) then ServiceOf(s) else Serve(ServiceOf(s), |s.log| + 1, q)
  {
  }

  /** The result of running the log sequentially up to and including entry `i`. */
  function ResultAt(respond: seq<Call> -> Bytes, log: seq<Request>, i: nat): Bytes
    requires i < |log|
  {
    respond(seq(i + 1, j requires 0 <= j < i + 1 => Call(j + 1, log[j].op)))
  }

  lemma CallsInLog(history: seq<Execution>, log: seq<Request>, k: nat)
    requires |history| == |log| && k < |log|
    requires forall i :: 0 <= i < |log| ==> history[i].request == log[i] && history[i].opNumber == i + 1
    ensures CallsOf(history)[..k + 1] == seq(k + 1, j requires 0 <= j < k + 1 => Call(j + 1, log[j].op))
  {
  }

  function Answer(q: Request, result: Bytes): (nat, Reply) {
    (q.addr, Reply(q.requestNumber, result, 0, 0))
  }

  /** Execution `k` of the service gives what the log up to entry `k` gives. */
  lemma LoggedResult(s: Server, k: nat)
    requires ServerInv(s) && k < |s.log|
    ensures ServiceOf(s).history[k].result == ResultAt(s.app.respond, s.log, k)
  {
    ReplayInv(s.app.respond, s.log);
    CallsInLog(ServiceOf(s).history, s.log, k);
  }

  /** A new request is logged and answered with what the log then gives for it. */
  lemma NewIsAnswered(s: Server, q: Request)
    requires ServerInv(s) && !Served(ServiceOf(s), q)
    ensures var s' := HandleRequest(s, q);
            && s'.log == s.log + [q] && s'.app.respond == s.app.respond
            && s'.toEffect == s.toEffect + [Answer(q, ResultAt(s.app.respond, s'.log, |s.log|))]
  {
    var s' := HandleRequest(s, q);
    HandleRequestTracks(s, q);
    LoggedResult(s', |s.log|);
  }

  /** A repeat of its client's latest request is answered once more, to the address in it and with
      the result of its execution; anything older is ignored. Neither changes anything else. */
  lemma RepeatIsAnswered(s: Server, q: Request)
    requires ServerInv(s) && Served(ServiceOf(s), q)
    ensures var last := ServiceOf(s).last[q.clientId];
            HandleRequest(s, q) ==
              if last.request.requestNumber == q.requestNumber
              then s.(toEffect := s.toEffect + [Answer(q, last.result)]) else s
  {
    HandleRequestTracks(s, q);
  }

  /** Every log entry has been answered, at its own address and with the result of the log up to it. */
  ghost predicate AllAnswered(s: Server) {
    forall k: nat :: k < |s.log| ==> Answer(s.log[k], ResultAt(s.app.respond, s.log, k)) in s.toEffect
  }

  lemma ResultInPrefix(respond: seq<Call> -> Bytes, log: seq<Request>, log': seq<Request>, k: nat)
    requires log <= log' && k < |log|
    ensures ResultAt(respond, log', k) == ResultAt(respond, log, k)
  {
    assert seq(k + 1, j requires 0 <= j < k + 1 => Call(j + 1, log'[j].op)) ==
           seq(k + 1, j requires 0 <= j < k + 1 => Call(j + 1, log[j].op));
  }

  lemma AnsweredKept(s: Server, q: Request)
    requires ServerInv(s) && AllAnswered(s)
    ensures AllAnswered(HandleRequest(s, q))
  {
    var s' := HandleRequest(s, q);
    if Served(ServiceOf(s), q) {
      RepeatIsAnswered(s, q);
    } else {
      NewIsAnswered(s, q);
      forall k: nat | k < |s'.log| ensures Answer(s'.log[k], ResultAt(s'.app.respond, s'.log, k)) in s'.toEffect {
        if k < |s.log| {
          ResultInPrefix(s.app.respond, s.log, s'.log, k);
          assert Answer(s.log[k], ResultAt(s.app.respond, s.log, k)) in s.toEffect;
        }
      }
    }
  }

  lemma AcceptReplies(s: Server, v: Service, q: Request)
    requires Tracks(s, v) && RepliesMatch(s, v) && q.addr == q.clientId && !Answered(s.clientTable, q)
    ensures RepliesMatch(HandleRequest(s, q), Serve(v, |s.log| + 1, q))
  {
  }

  lemma ResendReplies(s: Server, v: Service, q: Request)
    requires Tracks(s, v) && LastIsLatest(v) && RepliesMatch(s, v) && q.addr == q.clientId && Answered(s.clientTable, q)
    ensures RepliesMatch(HandleRequest(s, q), v)
  {
  }

  // ---------- Invariants of the whole ----------

  function Done(c: Client): int {
    if c.op.None? then c.requestNumber else c.requestNumber - 1
  }

  ghost predicate SentInv(c: Client, i: nat) {
    && c.id == i && c.addr == i && Valid(c)
    && (forall q :: q in c.sent ==> q.clientId == i && q.addr == i && 1 <= q.requestNumber <= c.requestNumber)
    && (forall q, q' :: q in c.sent && q' in c.sent && q.requestNumber == q'.requestNumber ==> q == q')
    && (forall q :: q in c.sent && c.op.Some? && q.requestNumber == c.requestNumber ==> q.op == c.op.value)
    && (c.op.Some? ==> Outstanding(c) in c.sent)
  }

  /** Where client `i` stands with the service: it is at most one request behind its own number. */
  ghost predicate Progress(v: Service, c: Client, i: nat) {
    && Done(c) <= LastNumber(v, i) <= c.requestNumber
    && Numbers(v.history, i) == Count(LastNumber(v, i))
    && (c.result.Some? ==> Executed(v, i, c.requestNumber, c.result.value))
  }

  ghost predicate ClientsInv(v: Service, clients: seq<Client>) {
    forall i: nat :: i < |clients| ==> SentInv(clients[i], i) && Progress(v, clients[i], i)
  }

  ghost predicate LogGenuine(w: World) {
    forall q :: q in w.server.log ==> Genuine(w, q)
  }

  ghost predicate WorldInv(w: World) {
    && LogGenuine(w) && ServerInv(w.server)
    && RepliesMatch(w.server, ServiceOf(w.server)) && ClientsInv(ServiceOf(w.server), w.clients)
  }

  lemma GenuineBounds(w: World, q: Request)
    requires WorldInv(w) && Genuine(w, q)
    ensures q.clientId < |w.clients| && q.addr == q.clientId
    ensures 1 <= q.requestNumber <= w.clients[q.clientId].requestNumber
  {
  }

  lemma ServeProgress(v: Service, k: nat, q: Request, c: Client, i: nat)
    requires Progress(v, c, i) && !Served(v, q)
    requires q.clientId == i ==> 1 <= q.requestNumber <= c.requestNumber
    ensures Progress(Serve(v, k, q), c, i)
  {
    ServeNumbers(v, k, q, i);
    ExecutedLater(v, Serve(v, k, q));
    if q.clientId == i {
      assert Count(q.requestNumber) == Count(LastNumber(v, i)) + [q.requestNumber];
    }
  }

  lemma ServeNumbers(v: Service, k: nat, q: Request, i: nat)
    requires !Served(v, q)
    ensures v.history <= Serve(v, k, q).history
    ensures LastNumber(Serve(v, k, q), i) == if q.clientId == i then q.requestNumber else LastNumber(v, i)
    ensures Numbers(Serve(v, k, q).history, i) ==
            Numbers(v.history, i) + if q.clientId == i then [q.requestNumber] else []
  {
    NumbersAppend(v.history, Serve(v, k, q).history[|v.history|], i);
  }

  lemma ResendKeeps(w: World, q: Request)
    requires WorldInv(w) && Genuine(w, q) && Answered(w.server.clientTable, q)
    ensures RepliesMatch(HandleRequest(w.server, q), ServiceOf(HandleRequest(w.server, q)))
    ensures ClientsInv(ServiceOf(HandleRequest(w.server, q)), w.clients)
  {
    GenuineBounds(w, q);
    HandleRequestTracks(w.server, q);
    ReplayInv(w.server.app.respond, w.server.log);
    ResendReplies(w.server, ServiceOf(w.server), q);
  }

  lemma AcceptKeeps(w: World, q: Request)
    requires WorldInv(w) && Genuine(w, q) && !Answered(w.server.clientTable, q)
    ensures RepliesMatch(HandleRequest(w.server, q), ServiceOf(HandleRequest(w.server, q)))
    ensures ClientsInv(ServiceOf(HandleRequest(w.server, q)), w.clients)
  {
    GenuineBounds(w, q);
    HandleRequestTracks(w.server, q);
    AcceptReplies(w.server, ServiceOf(w.server), q);
    forall i: nat | i < |w.clients| ensures Progress(ServiceOf(HandleRequest(w.server, q)), w.clients[i], i) {
      ServeProgress(ServiceOf(w.server), |w.server.log| + 1, q, w.clients[i], i);
    }
  }

  lemma DeliverKeeps(w: World, q: Request)
    requires WorldInv(w) && Genuine(w, q)
    ensures WorldInv(w.(server := HandleRequest(w.server, q)))
  {
    LogStaysGenuine(w, w.(server := HandleRequest(w.server, q)));
    HandleRequestTracks(w.server, q);
    if Answered(w.server.clientTable, q) {
      ResendKeeps(w, q);
    } else {
      AcceptKeeps(w, q);
    }
  }

  lemma ReceiveProgress(v: Service, c: Client, i: nat, reply: Reply)
    requires LastIsLatest(v) && Progress(v, c, i) && Executed(v, i, reply.requestNumber, reply.result)
    ensures Progress(v, Receive(c, reply), i)
  {
  }

  lemma ClientMoveKeeps(w: World, c: nat, client: Client)
    requires WorldInv(w) && c < |w.clients| && SentInv(client, c) && Progress(ServiceOf(w.server), client, c)
    requires w.clients[c].sent <= client.sent
    ensures WorldInv(SetClient(w, c, client))
  {
    LogStaysGenuine(w, SetClient(w, c, client));
  }

  lemma LogStaysGenuine(w: World, w': World)
    requires LogGenuine(w) && |w'.clients| == |w.clients|
    requires forall i: nat :: i < |w.clients| ==> w.clients[i].sent <= w'.clients[i].sent
    requires forall q :: q in w'.server.log ==> q in w.server.log || Genuine(w, q)
    ensures LogGenuine(w')
  {
  }

  lemma ResendSent(c: Client, i: nat, now: nat)
    requires SentInv(c, i)
    ensures SentInv(Resend(c, now), i) && c.sent <= Resend(c, now).sent
  {
  }

  lemma ReceiveSent(c: Client, i: nat, reply: Reply)
    requires SentInv(c, i)
    ensures SentInv(Receive(c, reply), i) && Receive(c, reply).sent == c.sent
  {
  }

  lemma ResendProgress(v: Service, c: Client, i: nat, now: nat)
    requires Valid(c) && Progress(v, c, i)
    ensures Progress(v, Resend(c, now), i)
  {
  }

  lemma PollKeeps(w: World, c: nat, now: nat, incoming: Option<Reply>)
    requires WorldInv(w) && CanHappen(w, PollClient(c, now, incoming))
    ensures WorldInv(SetClient(w, c, Poll(w.clients[c], now, incoming)))
  {
    var v, c1 := ServiceOf(w.server), Resend(w.clients[c], now);
    ResendSent(w.clients[c], c, now);
    ResendProgress(v, w.clients[c], c, now);
    if incoming.Some? {
      ReplayInv(w.server.app.respond, w.server.log);
      ReceiveSent(c1, c, incoming.value);
      ReceiveProgress(v, c1, c, incoming.value);
    }
    ClientMoveKeeps(w, c, Poll(w.clients[c], now, incoming));
  }

  lemma InvokeSent(c: Client, i: nat, op: Bytes, now: nat)
    requires SentInv(c, i) && c.op.None?
    ensures SentInv(Invoke(c, op, now), i) && c.sent <= Invoke(c, op, now).sent
  {
  }

  lemma InvokeKeeps(w: World, c: nat, op: Bytes, now: nat)
    requires WorldInv(w) && CanHappen(w, InvokeClient(c, op, now))
    ensures WorldInv(SetClient(w, c, Invoke(w.clients[c], op, now)))
  {
    assert SentInv(w.clients[c], c) && Progress(ServiceOf(w.server), w.clients[c], c);
    InvokeSent(w.clients[c], c, op, now);
    ClientMoveKeeps(w, c, Invoke(w.clients[c], op, now));
  }

  lemma NextKeeps(w: World, e: Event)
    requires WorldInv(w)
    ensures WorldInv(Next(w, e))
  {
    if CanHappen(w, e) {
      match e
      case InvokeClient(c, op, now) => InvokeKeeps(w, c, op, now);
      case PollClient(c, now, incoming) => PollKeeps(w, c, now, incoming);
      case TakeFrom(c) => ClientMoveKeeps(w, c, TakeResult(w.clients[c]).0);
      case DeliverRequest(q) => DeliverKeeps(w, q);
    }
  }

  lemma {:induction false} AfterAllInv(m: nat, respond: seq<Call> -> Bytes, es: seq<Event>)
    ensures WorldInv(AfterAll(Setup(m, respond), es))
    decreases |es|
  {
    if es != [] {
      AfterAllInv(m, respond, es[..|es| - 1]);
      NextKeeps(AfterAll(Setup(m, respond), es[..|es| - 1]), es[|es| - 1]);
    }
  }

  /** Some events lead from an empty server and idle clients to `w`. */
  ghost predicate ReachableWorld(w: World) {
    exists m: nat, respond, es :: w == AfterAll(Setup(m, respond), es)
  }

  lemma ReachableWorldInv(w: World)
    requires ReachableWorld(w)
    ensures WorldInv(w)
  {
    var m: nat, respond, es :| w == AfterAll(Setup(m, respond), es);
    AfterAllInv(m, respond, es);
  }

  // ---------- Exactly once ----------

  /** The request numbers of client `c` in a log. */
  function NumbersIn(log: seq<Request>, c: nat): seq<nat>
    decreases |log|
  {
    if log == [] then []
    else
      NumbersIn(log[..|log| - 1], c) + if log[|log| - 1].clientId == c then [log[|log| - 1].requestNumber] else []
  }

  lemma {:induction false} SameNumbers(history: seq<Execution>, log: seq<Request>, c: nat)
    requires |history| == |log| && forall i :: 0 <= i < |log| ==> history[i].request == log[i]
    ensures Numbers(history, c) == NumbersIn(log, c)
    decreases |log|
  {
    if log != [] {
      SameNumbers(history[..|log| - 1], log[..|log| - 1], c);
    }
  }

  /** Exactly-once execution: at request number `r`, the server log restricted to a client is its
      requests 1, 2, ..., k in order with k = r - 1 or k = r, and k = r once the reply is accepted. */
  lemma LogIsExact(w: World, i: nat) returns (k: nat)
    requires ReachableWorld(w) && i < |w.clients|
    ensures NumbersIn(w.server.log, i) == Count(k)
    ensures w.clients[i].requestNumber - 1 <= k <= w.clients[i].requestNumber
    ensures w.clients[i].op.None? ==> k == w.clients[i].requestNumber
  {
    ReachableWorldInv(w);
    var v := ServiceOf(w.server);
    SameNumbers(v.history, w.server.log, i);
    assert Progress(v, w.clients[i], i);
    k := LastNumber(v, i);
  }

  lemma NextAnswered(w: World, e: Event)
    requires ServerInv(w.server) && AllAnswered(w.server)
    ensures AllAnswered(Next(w, e).server)
  {
    if e.DeliverRequest? {
      AnsweredKept(w.server, e.request);
    }
  }

  lemma {:induction false} AfterAllAnswered(m: nat, respond: seq<Call> -> Bytes, es: seq<Event>)
    ensures AllAnswered(AfterAll(Setup(m, respond), es).server)
    decreases |es|
  {
    if es != [] {
      var init := es[..|es| - 1];
      AfterAllAnswered(m, respond, init);
      AfterAllInv(m, respond, init);
      NextAnswered(AfterAll(Setup(m, respond), init), es[|es| - 1]);
    }
  }

  lemma OutstandingSent(c: Client, i: nat)
    requires SentInv(c, i) && c.op.Some?
    ensures Request(i, c.requestNumber, c.op.value, i) in c.sent
  {
  }

  /** Nothing is executed in silence: every entry of the server log has been answered with the result
      the log gives for it, and every outstanding request has been sent. */
  lemma AllAreAnswered(w: World)
    requires ReachableWorld(w)
    ensures AllAnswered(w.server)
    ensures forall i: nat :: i < |w.clients| && w.clients[i].op.Some? ==>
              Request(i, w.clients[i].requestNumber, w.clients[i].op.value, i) in w.clients[i].sent
  {
    ReachableWorldInv(w);
    var m: nat, respond, es :| w == AfterAll(Setup(m, respond), es);
    AfterAllAnswered(m, respond, es);
    forall i: nat | i < |w.clients| && w.clients[i].op.Some?
      ensures Request(i, w.clients[i].requestNumber, w.clients[i].op.value, i) in w.clients[i].sent
    {
      OutstandingSent(w.clients[i], i);
    }
  }

  /** The result a client holds is what the one log entry for its current request, as it sent it,
      gives when the server log is run sequentially. */
  lemma ResultIsExact(w: World, i: nat) returns (k: nat)
    requires ReachableWorld(w) && i < |w.clients| && w.clients[i].result.Some?
    ensures k < |w.server.log| && IsRequest(w.server.log[k], i, w.clients[i].requestNumber)
    ensures w.server.log[k] in w.clients[i].sent
    ensures w.clients[i].result == Some(ResultAt(w.server.app.respond, w.server.log, k))
    ensures forall j :: 0 <= j < |w.server.log| && IsRequest(w.server.log[j], i, w.clients[i].requestNumber) ==> j == k
  {
    ReachableWorldInv(w);
    var respond := w.server.app.respond;
    assert Progress(ServiceOf(w.server), w.clients[i], i);
    ReplayInv(respond, w.server.log);
    k := ExecutedAt(respond, ServiceOf(w.server), w.server.log, i, w.clients[i].requestNumber,
                    w.clients[i].result.value);
    LoggedBySender(w, w.server.log[k]);
  }

  lemma LoggedBySender(w: World, q: Request)
    requires WorldInv(w) && q in w.server.log
    ensures q.clientId < |w.clients| && q in w.clients[q.clientId].sent
  {
  }

  lemma ExecutedAt(respond: seq<Call> -> Bytes, v: Service, log: seq<Request>, c: nat, r: nat, result: Bytes)
    returns (k: nat)
    requires v.app.respond == respond && ServiceInv(v) && Repeats(v, log) && Executed(v, c, r, result)
    ensures k < |log| && IsRequest(log[k], c, r) && result == ResultAt(respond, log, k)
    ensures forall j :: 0 <= j < |log| && IsRequest(log[j], c, r) ==> j == k
  {
    var e :| e in v.history && IsRequest(e.request, c, r) && e.result == result;
    k :| 0 <= k < |v.history| && v.history[k] == e;
    CallsInLog(v.history, log, k);
    forall j | 0 <= j < |log| && IsRequest(log[j], c, r) ensures j == k {
      IndexUnique(v.history, j, k);
    }
  }
}
