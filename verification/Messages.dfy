/** The values exchanged between clients, the threads of a replica, and replicas. */
module Messages {

  newtype Byte = b: int | 0 <= b < 256
  type Bytes = seq<Byte>

  datatype Option<+T> = None | Some(value: T)

  datatype Request = Request(clientId: nat, requestNumber: nat, op: Bytes, addr: nat)

  datatype Reply = Reply(requestNumber: nat, result: Bytes, replicaId: nat, viewNumber: nat)

  /** A symbolic digest: hashing a batch is injective, and some digests are the hash of no batch. */
  datatype Digest = Sha256(requests: seq<Request>) | Other(bits: nat)

  datatype PrePrepare = PrePrepare(viewNumber: nat, opNumber: nat, digest: Digest)
  datatype Prepare = Prepare(viewNumber: nat, opNumber: nat, digest: Digest, replicaId: nat)
  datatype Commit = Commit(viewNumber: nat, opNumber: nat, digest: Digest, replicaId: nat)

  datatype ToReplica =
    | ToRequest(request: Request)
    | ToPrePrepare(prePrepare: PrePrepare, requests: seq<Request>)
    | ToPrepare(prepare: Prepare)
    | ToCommit(commit: Commit)

  /** What the main thread hands to the crypto thread. A reply also records, for the
      statements made about it, the client whose request it answers. */
  datatype ToCrypto =
    | SendReply(addr: nat, clientId: nat, reply: Reply)
    | SendPrePrepare(viewNumber: nat, opNumber: nat, requests: seq<Request>)
    | SendPrepare(prepare: Prepare)
    | SendCommit(commit: Commit)

  datatype Call = Call(opNumber: nat, op: Bytes)

  /** An arbitrary deterministic application: each result is a function of all the calls
      made so far, so the sequence of calls stands for the application state. */
  datatype App = App(respond: seq<Call> -> Bytes, calls: seq<Call>) {
    function Execute(opNumber: nat, op: Bytes): (App, Bytes) {
      var calls' := calls + [Call(opNumber, op)];
      (this.(calls := calls'), respond(calls'))
    }
  }

  /** `n` replicas configured to tolerate `f` faults. */
  datatype Config = Config(n: nat, f: nat)

  /** A client table already holds a reply at least as recent as `q`. */
  predicate Answered(table: map<nat, Reply>, q: Request) {
    q.clientId in table && table[q.clientId].requestNumber >= q.requestNumber
  }
}
