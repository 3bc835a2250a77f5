/** The main thread of a PBFT replica as an object that its handlers update in place.
    Every handler is proved to move the state exactly as its function in `ReplicaModel` does. */
module MainThreadModel {
  import opened Messages
  import opened ReplicaModel

  class MainThread {
    const id: nat
    const config: Config
    var app: App
    var clientTable: map<nat, Reply>
    const viewNumber: nat
    var opNumber: nat
    var executeNumber: nat
    var log: seq<LogEntry>
    var prepareQuorums: Quorums
    var commitQuorums: Quorums
    var requests: seq<Request>
    var reorder: map<nat, LogEntry>
    var toCrypto: seq<ToCrypto>
    var panicked: bool

    ghost function State(): Replica
      reads this
    {
      Replica(id, config, app, clientTable, viewNumber, opNumber, executeNumber, log,
              prepareQuorums, commitQuorums, requests, reorder, toCrypto, panicked)
    }

    /** A buffered pre-prepare is stored under its own op number. */
    ghost predicate Valid()
      reads this
    {
      config.n > 0 && forall k :: k in reorder ==> reorder[k].prePrepare.opNumber == k
    }

    constructor (id: nat, config: Config, respond: seq<Call> -> Bytes)
      requires config.n > 0
      ensures Valid() && State() == New(id, config, respond)
    {
      this.id, this.config, viewNumber := id, config, 0;
      app, clientTable := App(respond, []), map[];
      opNumber, executeNumber, log := 0, 0, [];
      prepareQuorums, commitQuorums := map[], map[];
      requests, reorder, toCrypto, panicked := [], map[], [], false;
    }

    method Poll(m: ToReplica)
      requires Valid()
      modifies this
      ensures Valid() && State() == ReplicaModel.Poll(old(State()), m)
    {
      if panicked {
        return;
      }
      match m
      case ToRequest(q) => HandleRequest(q);
      case ToPrePrepare(pp, qs) => ReceivePrePrepare(LogEntry(pp, qs));
      case ToPrepare(p) => HandlePrepare(p);
      case ToCommit(c) => HandleCommit(c);
    }

    method ReceivePrePrepare(entry: LogEntry)
      requires Valid()
      modifies this
      ensures Valid() && State() == ReplicaModel.ReceivePrePrepare(old(State()), entry)
    {
      if entry.prePrepare.opNumber != |log| + 1 {
        reorder := reorder[entry.prePrepare.opNumber := entry];
      } else {
        HandlePrePrepare(entry);
        ghost var first := State();
        while |log| + 1 in reorder
          invariant Valid()
          invariant Drain(State()) == Drain(first)
          decreases |reorder|
        {
          var k := |log| + 1;
          var next := reorder[k];
          RemoveShrinks(reorder, k);
          reorder := reorder - {k};
          HandlePrePrepare(next);
        }
      }
    }

    method HandleRequest(q: Request)
      requires Valid()
      modifies this
      ensures Valid() && State() == ReplicaModel.HandleRequest(old(State()), q)
    {
      if q.clientId in clientTable {
        var reply := clientTable[q.clientId];
        if reply.requestNumber > q.requestNumber {
          return;
        }
        if reply.requestNumber == q.requestNumber {
          toCrypto := toCrypto + [SendReply(q.addr, q.clientId, reply)];
          return;
        }
      }
      if id != viewNumber % config.n {
        panicked := true;
        return;
      }
      requests := requests + [q];
      if opNumber < executeNumber + 6 {
        DoCloseBatch();
      }
    }

    method DoCloseBatch()
      requires Valid()
      modifies this
      ensures Valid() && State() == CloseBatch(old(State()))
    {
      opNumber := opNumber + 1;
      var batch := requests;
      requests := [];
      toCrypto := toCrypto + [SendPrePrepare(viewNumber, opNumber, batch)];
    }

    /** The precondition is the assertion the source makes on entry. */
    method HandlePrePrepare(entry: LogEntry)
      requires Valid() && entry.prePrepare.opNumber == |log| + 1
      modifies this
      ensures Valid() && State() == ReplicaModel.HandlePrePrepare(old(State()), entry)
      ensures reorder == old(reorder)
    {
      var pp := entry.prePrepare;
      if pp.viewNumber != viewNumber {
        return;
      }
      log := log + [entry];
      if id != viewNumber % config.n {
        toCrypto := toCrypto + [SendPrepare(Prepare(viewNumber, pp.opNumber, pp.digest, id))];
      }
    }

    method HandlePrepare(m: Prepare)
      requires Valid()
      modifies this
      ensures Valid() && State() == ReplicaModel.HandlePrepare(old(State()), m)
    {
      if m.viewNumber != viewNumber {
        return;
      }
      var prepared := Prepared(m.opNumber, m.digest);
      if prepared {
        return;
      }
      prepareQuorums := AddVote(prepareQuorums, m.opNumber, m.digest, m.replicaId);
      prepared := Prepared(m.opNumber, m.digest);
      if prepared {
        toCrypto := toCrypto + [SendCommit(Commit(viewNumber, m.opNumber, m.digest, id))];
      }
    }

    method HandleCommit(m: Commit)
      requires Valid()
      modifies this
      ensures Valid() && State() == ReplicaModel.HandleCommit(old(State()), m)
    {
      if m.viewNumber != viewNumber {
        return;
      }
      var committed := Committed(m.opNumber, m.digest);
      if committed {
        return;
      }
      commitQuorums := AddVote(commitQuorums, m.opNumber, m.digest, m.replicaId);
      committed := Committed(m.opNumber, m.digest);
      if committed {
        Execute();
        if id == viewNumber % config.n && requests != [] {
          DoCloseBatch();
        }
      }
    }

    method Execute()
      requires Valid()
      modifies this
      ensures Valid() && State() == ReplicaModel.Execute(old(State()))
      decreases |log| - executeNumber
    {
      if executeNumber + 1 > |log| {
        return;
      }
      var entry := log[executeNumber];
      var committed := Committed(executeNumber + 1, entry.prePrepare.digest);
      if committed {
        executeNumber := executeNumber + 1;
        ExecuteBatch(entry.requests);
        Execute();
      }
    }

    /** The request loop in the body of `Execute`. */
    method ExecuteBatch(batch: seq<Request>)
      requires Valid()
      modifies this
      ensures Valid() && State() == ExecuteRequests(old(State()), batch)
    {
      for i := 0 to |batch|
        invariant Valid()
        invariant State() == ExecuteRequests(old(State()), batch[..i])
      {
        var q := batch[i];
        assert batch[..i + 1][..i] == batch[..i];
        ghost var before := State();
        if !(q.clientId in clientTable && clientTable[q.clientId].requestNumber >= q.requestNumber) {
          var (app', result) := app.Execute(executeNumber, q.op);
          app := app';
          var reply := Reply(q.requestNumber, result, id, viewNumber);
          clientTable := clientTable[q.clientId := reply];
          toCrypto := toCrypto + [SendReply(q.addr, q.clientId, reply)];
        }
        assert State() == ExecuteRequest(before, q);
      }
      assert batch[..|batch|] == batch;
    }

    method Prepared(k: nat, d: Digest) returns (prepared: bool)
      ensures prepared <==> IsPrepared(State(), k, d)
    {
      var votes := if (k, d) in prepareQuorums then |prepareQuorums[(k, d)]| else 0;
      prepared := 1 <= k <= |log| && votes >= 2 * config.f;
    }

    method Committed(k: nat, d: Digest) returns (committed: bool)
      ensures committed <==> IsCommitted(State(), k, d)
    {
      committed := Prepared(k, d);
      var votes := if (k, d) in commitQuorums then |commitQuorums[(k, d)]| else 0;
      committed := committed && votes > 2 * config.f;
    }
  }
}
