/** The service a client should see: batches of requests run one after another by one
    application, each request at most once. Nothing here knows about replicas. */
module Service {
  import opened Messages

  datatype Execution = Execution(opNumber: nat, request: Request, result: Bytes)

  /** `history` lists the executions made, and `last` the latest one of each client. */
  datatype Service = Service(app: App, last: map<nat, Execution>, history: seq<Execution>)

  function Begin(respond: seq<Call> -> Bytes): Service {
    Service(App(respond, []), map[], [])
  }

  /** The latest request number executed for client `c`, 0 if none. */
  function LastNumber(s: Service, c: nat): nat {
    if c in s.last then s.last[c].request.requestNumber else 0
  }

  predicate Served(s: Service, q: Request) {
    q.clientId in s.last && s.last[q.clientId].request.requestNumber >= q.requestNumber
  }

  function Serve(s: Service, k: nat, q: Request): Service {
    if Served(s, q) then s
    else
      var (app, result) := s.app.Execute(k, q.op);
      var e := Execution(k, q, result);
      Service(app, s.last[q.clientId := e], s.history + [e])
  }

  function ServeBatch(s: Service, k: nat, qs: seq<Request>): Service
    decreases |qs|
  {
    if qs == [] then s else Serve(ServeBatch(s, k, qs[..|qs| - 1]), k, qs[|qs| - 1])
  }

  /** Batch `i` of `bs`, counting from 1, runs at op number `i`. */
  function ServeBatches(respond: seq<Call> -> Bytes, bs: seq<seq<Request>>): Service
    decreases |bs|
  {
    if bs == [] then Begin(respond)
    else ServeBatch(ServeBatches(respond, bs[..|bs| - 1]), |bs|, bs[|bs| - 1])
  }

  function Flatten(bs: seq<seq<Request>>): seq<Request>
    decreases |bs|
  {
    if bs == [] then [] else Flatten(bs[..|bs| - 1]) + bs[|bs| - 1]
  }

  // ---------- At most once ----------

  predicate IsRequest(q: Request, c: nat, r: nat) {
    q.clientId == c && q.requestNumber == r
  }

  /** Request `r` of client `c` was executed with this result. */
  ghost predicate Executed(s: Service, c: nat, r: nat, result: Bytes) {
    exists e :: e in s.history && IsRequest(e.request, c, r) && e.result == result
  }

  lemma ExecutedLater(s: Service, s': Service)
    requires s.history <= s'.history
    ensures forall c: nat, r: nat, result :: Executed(s, c, r, result) ==> Executed(s', c, r, result)
  {
  }

  /** Request numbers strictly increase within each client. */
  ghost predicate Increasing(history: seq<Execution>) {
    forall i, j :: 0 <= i < j < |history| && history[i].request.clientId == history[j].request.clientId ==>
      history[i].request.requestNumber < history[j].request.requestNumber
  }

  function CallsOf(history: seq<Execution>): (calls: seq<Call>)
    ensures |calls| == |history|
    ensures forall i :: 0 <= i < |calls| ==> calls[i] == Call(history[i].opNumber, history[i].request.op)
  {
    seq(|history|, i requires 0 <= i < |history| => Call(history[i].opNumber, history[i].request.op))
  }

  /** The result of execution `i` is what the application gives after exactly the calls before it. */
  ghost predicate Sequential(respond: seq<Call> -> Bytes, history: seq<Execution>) {
    forall i :: 0 <= i < |history| ==> history[i].result == respond(CallsOf(history)[..i + 1])
  }

  ghost predicate LastIsLatest(s: Service) {
    (forall c :: c in s.last ==> s.last[c] in s.history && s.last[c].request.clientId == c) &&
    (forall e :: e in s.history ==>
       e.request.clientId in s.last && e.request.requestNumber <= LastNumber(s, e.request.clientId))
  }

  ghost predicate ServiceInv(s: Service) {
    LastIsLatest(s) && Increasing(s.history) && s.app.calls == CallsOf(s.history) &&
    Sequential(s.app.respond, s.history)
  }

  lemma SequentialAppend(respond: seq<Call> -> Bytes, history: seq<Execution>, e: Execution)
    requires Sequential(respond, history) && e.result == respond(CallsOf(history) + [Call(e.opNumber, e.request.op)])
    ensures Sequential(respond, history + [e])
    ensures CallsOf(history + [e]) == CallsOf(history) + [Call(e.opNumber, e.request.op)]
  {
    var history' := history + [e];
    assert CallsOf(history') == CallsOf(history) + [Call(e.opNumber, e.request.op)];
    forall i | 0 <= i < |history'| ensures history'[i].result == respond(CallsOf(history')[..i + 1]) {
      if i < |history| {
        assert CallsOf(history')[..i + 1] == CallsOf(history)[..i + 1];
      } else {
        assert CallsOf(history')[..i + 1] == CallsOf(history');
      }
    }
  }

  lemma LatestAppend(s: Service, k: nat, q: Request)
    requires LastIsLatest(s) && Increasing(s.history) && !Served(s, q)
    ensures LastIsLatest(Serve(s, k, q)) && Increasing(Serve(s, k, q).history)
  {
    var s' := Serve(s, k, q);
    var e := s'.last[q.clientId];
    assert s'.history == s.history + [e];
    forall x | x in s'.history
      ensures x.request.clientId in s'.last && x.request.requestNumber <= LastNumber(s', x.request.clientId)
    {
      assert x in s.history || x == e;
    }
  }

  lemma ServeKeeps(s: Service, k: nat, q: Request)
    requires ServiceInv(s)
    ensures ServiceInv(Serve(s, k, q))
    ensures Served(Serve(s, k, q), q) && Serve(s, k, q).app.respond == s.app.respond
    ensures s.history <= Serve(s, k, q).history
  {
    var s' := Serve(s, k, q);
    if !Served(s, q) {
      var e := s'.last[q.clientId];
      SequentialAppend(s.app.respond, s.history, e);
      LatestAppend(s, k, q);
    }
  }

  lemma {:induction false} ServeBatchKeeps(s: Service, k: nat, qs: seq<Request>)
    requires ServiceInv(s)
    ensures ServiceInv(ServeBatch(s, k, qs)) && ServeBatch(s, k, qs).app.respond == s.app.respond
    ensures s.history <= ServeBatch(s, k, qs).history
    decreases |qs|
  {
    if qs != [] {
      ServeBatchKeeps(s, k, qs[..|qs| - 1]);
      ServeKeeps(ServeBatch(s, k, qs[..|qs| - 1]), k, qs[|qs| - 1]);
    }
  }

  /** At-most-once execution by a sequential application, whatever batches are given. */
  lemma {:induction false} ServeBatchesInv(respond: seq<Call> -> Bytes, bs: seq<seq<Request>>)
    ensures ServiceInv(ServeBatches(respond, bs)) && ServeBatches(respond, bs).app.respond == respond
    decreases |bs|
  {
    if bs != [] {
      ServeBatchesInv(respond, bs[..|bs| - 1]);
      ServeBatchKeeps(ServeBatches(respond, bs[..|bs| - 1]), |bs|, bs[|bs| - 1]);
    }
  }

  /** Running more batches only adds executions. */
  lemma {:induction false} HistoryPrefix(respond: seq<Call> -> Bytes, bs: seq<seq<Request>>, bs': seq<seq<Request>>)
    requires bs <= bs'
    ensures ServeBatches(respond, bs).history <= ServeBatches(respond, bs').history
    decreases |bs'|
  {
    if bs == bs' {
    } else {
      assert bs <= bs'[..|bs'| - 1];
      HistoryPrefix(respond, bs, bs'[..|bs'| - 1]);
      ServeBatchesInv(respond, bs'[..|bs'| - 1]);
      ServeBatchKeeps(ServeBatches(respond, bs'[..|bs'| - 1]), |bs'|, bs'[|bs'| - 1]);
    }
  }

  lemma IndexUnique(history: seq<Execution>, i: nat, j: nat)
    requires Increasing(history) && i < |history| && j < |history|
    requires history[i].request.clientId == history[j].request.clientId
    requires history[i].request.requestNumber == history[j].request.requestNumber
    ensures i == j
  {
  }

  /** One client and request number identify one execution. */
  lemma ExecutionUnique(s: Service, a: Execution, b: Execution)
    requires ServiceInv(s) && a in s.history && b in s.history
    requires a.request.clientId == b.request.clientId && a.request.requestNumber == b.request.requestNumber
    ensures a == b
  {
  }

  // ---------- Without gaps ----------

  /** The request numbers executed for client `c`, in order. */
  function Numbers(history: seq<Execution>, c: nat): seq<nat>
    decreases |history|
  {
    if history == [] then []
    else
      var rest := Numbers(history[..|history| - 1], c);
      var e := history[|history| - 1];
      if e.request.clientId == c then rest + [e.request.requestNumber] else rest
  }

  function Count(m: nat): (ns: seq<nat>)
    ensures |ns| == m && forall i :: 0 <= i < m ==> ns[i] == i + 1
  {
    seq(m, i requires 0 <= i < m => i + 1)
  }

  ghost predicate Occurs(qs: seq<Request>, c: nat, r: nat) {
    exists q :: q in qs && IsRequest(q, c, r)
  }

  /** Every request but a client's first comes after that client's previous one, repeats allowed. */
  ghost predicate ClosedLoop(qs: seq<Request>) {
    forall i :: 0 <= i < |qs| ==>
      qs[i].requestNumber >= 1 &&
      (qs[i].requestNumber > 1 ==> Occurs(qs[..i], qs[i].clientId, qs[i].requestNumber - 1))
  }

  ghost predicate Gapless(s: Service, qs: seq<Request>) {
    (forall c :: Numbers(s.history, c) == Count(LastNumber(s, c))) &&
    (forall q :: q in qs ==> q.requestNumber <= LastNumber(s, q.clientId))
  }

  /** A request that is not yet served is the next one of its client. */
  lemma NextInLoop(s: Service, qs: seq<Request>, q: Request)
    requires Gapless(s, qs) && ClosedLoop(qs + [q]) && !Served(s, q)
    ensures q.requestNumber == LastNumber(s, q.clientId) + 1
  {
    assert (qs + [q])[|qs|] == q && (qs + [q])[..|qs|] == qs;
    if q.requestNumber > 1 {
      var p :| p in qs && IsRequest(p, q.clientId, q.requestNumber - 1);
    }
  }

  lemma NumbersAppend(history: seq<Execution>, e: Execution, c: nat)
    ensures Numbers(history + [e], c) ==
            Numbers(history, c) + if e.request.clientId == c then [e.request.requestNumber] else []
  {
  }

  lemma ServeGapless(s: Service, qs: seq<Request>, k: nat, q: Request)
    requires Gapless(s, qs) && ClosedLoop(qs + [q])
    ensures Gapless(Serve(s, k, q), qs + [q])
  {
    var s' := Serve(s, k, q);
    if !Served(s, q) {
      NextInLoop(s, qs, q);
      var e := s'.history[|s.history|];
      forall c ensures Numbers(s'.history, c) == Count(LastNumber(s', c)) {
        NumbersAppend(s.history, e, c);
        if c == q.clientId {
          assert Count(LastNumber(s', c)) == Count(LastNumber(s, c)) + [q.requestNumber];
        }
      }
    }
  }

  lemma ClosedLoopPrefix(qs: seq<Request>, qs': seq<Request>)
    requires qs <= qs' && ClosedLoop(qs')
    ensures ClosedLoop(qs)
  {
  }

  lemma {:induction false} ServeBatchGapless(s: Service, before: seq<Request>, k: nat, qs: seq<Request>)
    requires ServiceInv(s) && Gapless(s, before) && ClosedLoop(before + qs)
    ensures Gapless(ServeBatch(s, k, qs), before + qs)
    decreases |qs|
  {
    if qs == [] {
      assert before + qs == before;
    } else {
      var init := qs[..|qs| - 1];
      assert before + qs == before + init + [qs[|qs| - 1]];
      ClosedLoopPrefix(before + init, before + qs);
      ServeBatchGapless(s, before, k, init);
      ServeBatchKeeps(s, k, init);
      ServeGapless(ServeBatch(s, k, init), before + init, k, qs[|qs| - 1]);
    }
  }

  /** If clients run in a closed loop, then despite repeats each client's executed request
      numbers are exactly 1, 2, ..., m, and nothing given is left unexecuted. */
  lemma {:induction false} ServeBatchesGapless(respond: seq<Call> -> Bytes, bs: seq<seq<Request>>)
    requires ClosedLoop(Flatten(bs))
    ensures Gapless(ServeBatches(respond, bs), Flatten(bs))
    decreases |bs|
  {
    if bs != [] {
      var init := bs[..|bs| - 1];
      ClosedLoopPrefix(Flatten(init), Flatten(bs));
      ServeBatchesGapless(respond, init);
      ServeBatchesInv(respond, init);
      ServeBatchGapless(ServeBatches(respond, init), Flatten(init), |bs|, bs[|bs| - 1]);
    }
  }
}
