/** The main thread of a PBFT replica as a value, and its message handlers as functions.
    `MainThread.dfy` proves that the imperative handlers compute exactly these. */
module ReplicaModel {
  import opened Messages

  datatype LogEntry = LogEntry(prePrepare: PrePrepare, requests: seq<Request>)

  /** Votes received so far, by op number and digest: the ids of the voters. */
  type Quorums = map<(nat, Digest), set<nat>>

  datatype Replica = Replica(
    id: nat,
    config: Config,
    app: App,
    clientTable: map<nat, Reply>,
    viewNumber: nat,
    opNumber: nat,
    executeNumber: nat,
    log: seq<LogEntry>,
    prepareQuorums: Quorums,
    commitQuorums: Quorums,
    requests: seq<Request>,
    reorder: map<nat, LogEntry>,
    toCrypto: seq<ToCrypto>,
    panicked: bool)

  function New(id: nat, config: Config, respond: seq<Call> -> Bytes): Replica {
    Replica(id, config, App(respond, []), map[], 0, 0, 0, [], map[], map[], [], map[], [], false)
  }

  function Votes(quorums: Quorums, k: nat, d: Digest): set<nat> {
    if (k, d) in quorums then quorums[(k, d)] else {}
  }

  function AddVote(quorums: Quorums, k: nat, d: Digest, id: nat): Quorums {
    quorums[(k, d) := Votes(quorums, k, d) + {id}]
  }

  predicate HasEntry(log: seq<LogEntry>, k: nat) {
    1 <= k <= |log|
  }

  predicate IsPrepared(r: Replica, k: nat, d: Digest) {
    HasEntry(r.log, k) && |Votes(r.prepareQuorums, k, d)| >= 2 * r.config.f
  }

  predicate IsCommitted(r: Replica, k: nat, d: Digest) {
    IsPrepared(r, k, d) && |Votes(r.commitQuorums, k, d)| > 2 * r.config.f
  }

  predicate IsPrimary(r: Replica) {
    r.config.n > 0 && r.id == r.viewNumber % r.config.n
  }

  function NextEntry(r: Replica): nat {
    |r.log| + 1
  }

  function Send(r: Replica, e: ToCrypto): Replica {
    r.(toCrypto := r.toCrypto + [e])
  }

  function CloseBatch(r: Replica): Replica {
    Send(r.(opNumber := r.opNumber + 1, requests := []),
         SendPrePrepare(r.viewNumber, r.opNumber + 1, r.requests))
  }

  function HandleRequest(r: Replica, q: Request): Replica {
    if Answered(r.clientTable, q) then
      var reply := r.clientTable[q.clientId];
      if reply.requestNumber > q.requestNumber then r
      else Send(r, SendReply(q.addr, q.clientId, reply))
    else if !IsPrimary(r) then
      r.(panicked := true)
    else
      var r' := r.(requests := r.requests + [q]);
      if r.opNumber < r.executeNumber + 6 then CloseBatch(r') else r'
  }

  function HandlePrePrepare(r: Replica, entry: LogEntry): Replica {
    var pp := entry.prePrepare;
    if pp.viewNumber != r.viewNumber then r
    else
      var r' := r.(log := r.log + [entry]);
      if IsPrimary(r) then r'
      else Send(r', SendPrepare(Prepare(r.viewNumber, pp.opNumber, pp.digest, r.id)))
  }

  predicate CanDrain(r: Replica) {
    NextEntry(r) in r.reorder
  }

  /** Takes the next pre-prepare out of the buffer and handles it. */
  function DrainOne(r: Replica): (r': Replica)
    requires CanDrain(r)
    ensures |r'.reorder| < |r.reorder|
  {
    RemoveShrinks(r.reorder, NextEntry(r));
    HandlePrePrepare(r.(reorder := r.reorder - {NextEntry(r)}), r.reorder[NextEntry(r)])
  }

  /** Moves buffered pre-prepares into the log while the next one is there. */
  function Drain(r: Replica): Replica
    decreases |r.reorder|
  {
    if CanDrain(r) then Drain(DrainOne(r)) else r
  }

  lemma RemoveShrinks<V>(m: map<nat, V>, k: nat)
    requires k in m
    ensures |m - {k}| < |m|
  {
  }

  function ReceivePrePrepare(r: Replica, entry: LogEntry): Replica {
    if entry.prePrepare.opNumber != NextEntry(r) then
      r.(reorder := r.reorder[entry.prePrepare.opNumber := entry])
    else
      Drain(HandlePrePrepare(r, entry))
  }

  function CountPrepare(r: Replica, m: Prepare): Replica {
    r.(prepareQuorums := AddVote(r.prepareQuorums, m.opNumber, m.digest, m.replicaId))
  }

  function HandlePrepare(r: Replica, m: Prepare): Replica {
    if m.viewNumber != r.viewNumber || IsPrepared(r, m.opNumber, m.digest) then r
    else
      var r' := CountPrepare(r, m);
      if IsPrepared(r', m.opNumber, m.digest) then
        Send(r', SendCommit(Commit(r.viewNumber, m.opNumber, m.digest, r.id)))
      else r'
  }

  function CountCommit(r: Replica, m: Commit): Replica {
    r.(commitQuorums := AddVote(r.commitQuorums, m.opNumber, m.digest, m.replicaId))
  }

  /** What a new committed certificate sets off. */
  function Advance(r: Replica): Replica {
    var r' := Execute(r);
    if IsPrimary(r') && r'.requests != [] then CloseBatch(r') else r'
  }

  function HandleCommit(r: Replica, m: Commit): Replica {
    if m.viewNumber != r.viewNumber || IsCommitted(r, m.opNumber, m.digest) then r
    else if IsCommitted(CountCommit(r, m), m.opNumber, m.digest) then Advance(CountCommit(r, m))
    else CountCommit(r, m)
  }

  function ExecuteRequest(r: Replica, q: Request): Replica {
    if Answered(r.clientTable, q) then r
    else
      var (app, result) := r.app.Execute(r.executeNumber, q.op);
      var reply := Reply(q.requestNumber, result, r.id, r.viewNumber);
      Send(r.(app := app, clientTable := r.clientTable[q.clientId := reply]),
           SendReply(q.addr, q.clientId, reply))
  }

  function ExecuteRequests(r: Replica, qs: seq<Request>): (r': Replica)
    ensures r'.log == r.log && r'.executeNumber == r.executeNumber
    decreases |qs|
  {
    if qs == [] then r else ExecuteRequest(ExecuteRequests(r, qs[..|qs| - 1]), qs[|qs| - 1])
  }

  /** Log entry `k` exists and holds a committed certificate for its own digest. */
  predicate CommittedEntry(r: Replica, k: nat) {
    HasEntry(r.log, k) && IsCommitted(r, k, r.log[k - 1].prePrepare.digest)
  }

  predicate CanExecute(r: Replica) {
    CommittedEntry(r, r.executeNumber + 1)
  }

  function ExecuteEntry(r: Replica): (r': Replica)
    requires CanExecute(r)
    ensures r'.log == r.log && r'.executeNumber == r.executeNumber + 1
  {
    ExecuteRequests(r.(executeNumber := r.executeNumber + 1), r.log[r.executeNumber].requests)
  }

  function Execute(r: Replica): Replica
    decreases |r.log| - r.executeNumber
  {
    if CanExecute(r) then Execute(ExecuteEntry(r)) else r
  }

  /** One message taken from the channel into the main thread. A panicked thread takes no more. */
  function Poll(r: Replica, m: ToReplica): Replica {
    if r.panicked then r
    else
      match m
      case ToRequest(q) => HandleRequest(r, q)
      case ToPrePrepare(pp, qs) => ReceivePrePrepare(r, LogEntry(pp, qs))
      case ToPrepare(p) => HandlePrepare(r, p)
      case ToCommit(c) => HandleCommit(r, c)
  }

  /** Every message of `ms` taken in order. */
  function PollAll(r: Replica, ms: seq<ToReplica>): Replica
    decreases |ms|
  {
    if ms == [] then r else Poll(PollAll(r, ms[..|ms| - 1]), ms[|ms| - 1])
  }
}
