# Verified model of the PBFT, unreplicated RPC and benchmark-client cores

This project models three parts of the repository and proves what they guarantee together.

* **PBFT replica and cluster** (`src/pbft.rs`). The main thread of a replica is a class whose
  handlers update the log, the two certificate tables, the reorder buffer, the batching queue, the
  client table and the channel to the crypto thread. Each handler is proved equal to a function on
  a value of type `Replica`; everything else is proved about those functions. A cluster is the
  replicas, a set of faulty ones, and deliveries: what a correct replica has signed is read off the
  history of what its main thread handed to the crypto thread, a faulty replica signs anything, and
  any signed message may arrive anywhere, repeatedly, out of order, or never. A run is any sequence
  of deliveries. The protocol is the one of section 4.2, "Normal-Case Operation", of Castro and
  Liskov, "Practical Byzantine Fault Tolerance", OSDI 1999.
* **Clients and end-to-end behaviour** (`src/pbft.rs`, `src/unreplicated.rs`). Closed-loop clients
  that resend, joined to the replicas or to the single server by a network that loses, repeats and
  reorders, against one reference definition: a sequential service that runs batches of requests,
  each request at most once (`Service.dfy`).
* **Benchmark program** (`src/program/bench_client.rs`). The timer index over the array of
  deadlines, the run loop, and the count of results.

## When PBFT agreement holds in this code

`is_prepared` counts a prepare from any replica id, the primary's included, and does not compare
its digest with the log entry (src/pbft.rs:432-440), while section 4.2 takes the prepares from
different backups. And the kind of a vote is not signed: `Prepare` and `Commit` have the same fields
in the same order (src/message/src/pbft.rs:22-35), only the inner structure is serialized, hashed
and verified (src/pbft.rs:528-562), so anyone may turn a replica's signed prepare into its valid
commit and back. (The bytes of a pre-prepare never have the length of a vote.) The model has this
adversary: `Cluster.Signed` accepts a vote when its fields were signed as either kind. Three results
follow.

* `Agreement.ExecutionAgreement`: in every reachable state the executed logs of correct replicas are
  prefixes of one another if the primary is correct, or if no correct replica has counted a prepare
  naming the primary, or if fewer than `f - 1` replicas are faulty. The primary may equivocate in
  the last two cases.
* `Equivocation.AgreementExactly`: without any hypothesis on what is counted, agreement holds in
  all runs of a configuration if and only if the primary is correct or fewer than `f - 1` replicas
  are faulty. For every other configuration a run is constructed, for every `f` and every faulty
  set, in which two correct replicas execute different batches at op number 1.
* What a certificate means is weaker than in the protocol. A prepared one is backed by `2f` replicas
  that are faulty or have logged the batch (`Agreement.CertificateIsBacked`), from which agreement
  is proved. A committed one means that `f + 1` correct replicas have logged the batch or are
  prepared for it (`Agreement.CommittedWidelyHeld`). That `f + 1` are prepared holds when no prepare
  was counted as a commit, and otherwise fails in every configuration, with no faulty replica too:
  `VoteKinds.CommittedNarrowly` builds a run that commits at one replica alone.

The same configurations decide what clients see: `ClusterReplies.RepliesAgreeExactly` shows that
correct replicas answer each request with one result in all runs exactly there, and that elsewhere
two orders of the same two requests are enough for conflicting answers. What a client accepts is
more fragile, since it takes any one of `f + 1` answers without comparing them (src/pbft.rs:84-88):
`ForgedReply.ResultsMatchExactly` shows that accepted results are those of the correct replicas in
all runs if and only if no replica is faulty at all.

## Files

| file | contents |
|---|---|
| `Messages.dfy` | requests, replies, protocol messages, symbolic digests, the application |
| `Replica.dfy`, `MainThread.dfy` | the replica as a value and as an object |
| `Invariants.dfy`, `Execution.dfy`, `Primary.dfy`, `Reorder.dfy` | what holds at one replica over any messages |
| `Triggers.dfy` | what each message must set off |
| `Cluster.dfy`, `ClusterRuns.dfy`, `Agreement.dfy`, `Equivocation.dfy`, `VoteKinds.dfy`, `ClusterReplies.dfy` | the replicas with network and adversary |
| `Service.dfy` | the sequential service used as reference |
| `PbftClient.dfy`, `EndToEnd.dfy`, `ForgedReply.dfy` | the PBFT client, and clients with replicas |
| `Unreplicated.dfy`, `ExactlyOnce.dfy` | the baseline server and client, and the two together |
| `AnyClient.dfy`, `BenchModel.dfy`, `BenchClient.dfy` | a client of either protocol; the benchmark program as a value and as an object |
| `Sets.dfy`, `Time.dfy` | counting on finite sets; deadlines |

## How the code is represented

* Digests are injective: a digest is the constructor `Sha256` applied to the batch, or one of
  `Other`, which is the hash of no batch.
* Signatures are symbolic: a message naming a correct replica exists only if that replica's crypto
  thread signed its fields (`Cluster.Signed`); a vote may have been signed as the other kind. A
  pre-prepare is checked against its digest (`Invariants.Hashed`).
* Replies and requests are not signed. Where a replica is faulty, any request may be delivered, and
  any reply under the id of a faulty replica; correct ids are not borrowed, which makes the negative
  result about clients the stronger one.
* The application is arbitrary and deterministic: a result is any function of the calls made so far.
* `view_number` is a field that starts at 0 and that no handler changes. There are `n = 3f + 1`
  replicas with `f >= 1`, and `n <= 255` so that `n as u8` is `n` (`Cluster.WellConfigured`).
* Op and request numbers are unbounded. `entry` with op number 0 finds nothing, which is what the
  wrapping subtraction of an optimised build gives; a debug build stops there.
* The `todo!()` for a fresh request at a backup is modelled as the thread stopping (`panicked`).
* Draining a hash map takes an arbitrary entry: the choice is a parameter (`pick`) that the client's
  method picks non-deterministically.
* A reply handed to the crypto thread also records the client it is for. The code does not carry
  that field; it is there so that replies to the same client can be compared.
* Clock readings, datagrams and epoll results are parameters of the methods that use them.

## Model

| member | source | states |
|---|---|---|
| `MainThreadModel.MainThread.constructor` | src/pbft.rs:190-205 | A new main thread is in the initial state from which all runs start. |
| `MainThreadModel.MainThread.Poll` | src/pbft.rs:241-276 | One message moves the object exactly as the specification function about which all run properties are proved, for every message kind. |
| `MainThreadModel.MainThread.ReceivePrePrepare` | src/pbft.rs:251-264 | The drain loop terminates because the buffer shrinks, and leaves the fixed point of taking the next buffered entry; the op-number assertion of the handler never fails. |
| `MainThreadModel.MainThread.HandleRequest` | src/pbft.rs:280-301 | Duplicate suppression, resend of the stored reply, queueing, and closing a batch while the window of six is open. |
| `MainThreadModel.MainThread.DoCloseBatch` | src/pbft.rs:303-314 | The whole queue goes out under the next op number and the queue is empty afterwards. |
| `MainThreadModel.MainThread.HandlePrePrepare` | src/pbft.rs:316-338 | The entry is logged in the current view only, and only a backup votes for it. |
| `MainThreadModel.MainThread.HandlePrepare` | src/pbft.rs:340-367 | The vote is counted unless already prepared, and a commit is sent exactly on the step that completes the certificate. |
| `MainThreadModel.MainThread.HandleCommit` | src/pbft.rs:369-390 | The vote is counted unless already committed; completing a certificate executes and then lets the primary close one batch without testing the window. |
| `MainThreadModel.MainThread.Execute` | src/pbft.rs:392-422 | Terminates, with log length minus execute number as measure, in the state `ExecuteIsMaximal` and `StateIsFold` are about. |
| `MainThreadModel.MainThread.ExecuteBatch` | src/pbft.rs:401-419 | The request loop filters duplicates and executes, records and answers each remaining request in order. |
| `MainThreadModel.MainThread.Prepared` | src/pbft.rs:432-440 | True exactly when the entry exists and `2f` ids have voted for the digest, whoever they are. |
| `MainThreadModel.MainThread.Committed` | src/pbft.rs:442-450 | True exactly when prepared and more than `2f` ids have sent commits. |
| `Invariants.PollKeeps` | src/pbft.rs:241-422 | Every message keeps the log well numbered and hashed, the executed entries committed with their own digests, each vote justified and cast once, no buffered key equal to the next entry number, and loses nothing recorded. |
| `Invariants.ReachedKeeps` | src/pbft.rs:241-422 | The same after any sequence of messages whatever. |
| `Invariants.ExecuteIsMaximal` | src/pbft.rs:392-430 | On return, everything passed over was committed with its own digest, the next entry is not, and execution stays inside the log. |
| `Triggers.PreparesAreLog` | src/pbft.rs:316-338 | Over any run, the prepares a replica has sent are exactly those for its own log, entry by entry, whether an entry was logged on arrival or taken out of the buffer later; the primary has sent none. |
| `Triggers.PreparedExactly` | src/pbft.rs:340-367 | A replica is prepared if and only if it has the entry and has received prepares for the digest from `2f` ids, in any order and whenever the entry came. |
| `Triggers.CommittedExactly` | src/pbft.rs:369-390 | And committed if and only if it has received commits from more than `2f` ids as well. |
| `Triggers.CompletedPrepareCommits` | src/pbft.rs:353-366 | The prepare that completes a certificate, at any op number, makes the replica send its commit, and no other prepare makes it send anything. |
| `Triggers.CompletedCommitExecutes` | src/pbft.rs:383-389 | The commit that completes a certificate makes every replica, the primary included, execute up to the first entry that is missing or not committed, and the primary send all that waits in one batch without testing the window; no other commit does either. |
| `Triggers.DeliverySetsOff` | src/pbft.rs:340-390 | The same of every delivery in every reachable state of a cluster. |
| `Triggers.RepeatOutcome` | src/pbft.rs:281-292 | A repeat of a client's latest executed request is answered once more with its result, to the address in the request, and anything older changes nothing. |
| `Triggers.NewOutcome` | src/pbft.rs:293-300 | A request not yet executed is queued by the primary, which sends the whole queue exactly while the window of six is open, and stops a backup. |
| `Cluster.StepInv` | src/pbft.rs:316-390 | A delivery keeps every counted vote traceable to a vote of either kind that its correct signer sent, and every logged or buffered entry to the pre-prepare. |
| `Cluster.RunInv` | src/pbft.rs:316-390 | Traceability and the growth of all records hold along every run, under any adversary. |
| `Agreement.VoteMeansEntry` | src/pbft.rs:528-562 | A counted vote of either kind that names a correct replica means that it is a backup whose own entry with that op number has that digest, or that it is prepared for it. |
| `Agreement.CertificateIsBacked` | src/pbft.rs:432-440 | A prepared certificate at a correct replica means that at least `2f` replicas are faulty or are backups whose own entry with that op number has that digest, though commits may have been counted as prepares. |
| `Agreement.EntryIsOwn` | src/pbft.rs:501-527 | Entry `k` of a correct replica has op number `k`, view 0 and the digest of its own requests, and was sent by the primary if that is correct. |
| `Agreement.PreparedWithCorrectPrimary` | src/pbft.rs:432-440 | With a correct primary, a prepared certificate anywhere is for a batch the primary sent under that op number. |
| `Agreement.PreparedUnique` | src/pbft.rs:316-367 | Two correct replicas never hold prepared certificates for different digests at one op number, under the three conditions above. |
| `Agreement.ExecutionAgreement` | src/pbft.rs:392-450 | Executed logs of any two correct replicas are prefixes of one another, in digests and in batches, under the three conditions above. |
| `Agreement.CommittedWidelyHeld` | src/pbft.rs:340-390 | A committed certificate at one correct replica means that `f + 1` correct replicas have logged the batch under that op number or are prepared for it, in every later state, whoever the primary is. |
| `Agreement.CommittedWidelyPrepared` | src/pbft.rs:340-390 | If every counted commit naming a correct replica was sent as a commit, `f + 1` correct replicas are prepared, in every later state. |
| `VoteKinds.CommittedNarrowly` | src/pbft.rs:528-562 | In every configuration, with no faulty replica too, a reachable state exists in which one correct replica holds a committed certificate and no other correct replica is prepared. |
| `VoteKinds.PrimaryCounted` | src/pbft.rs:528-562 | With a correct primary, a reachable state exists in which its vote is counted as a prepare, which it never sends. |
| `Agreement.CertificatesStable` | src/pbft.rs:432-450 | Prepared and committed never turn false along a run, and logs only grow. |
| `Agreement.VotesCastOnce` | src/pbft.rs:316-390 | In a correct replica's whole history no op number has two prepares, no op number and digest two commits, and no op number two pre-prepares. |
| `Equivocation.Disagreement` | src/pbft.rs:432-440 | With a faulty primary and at least `f - 1` faulty replicas, a reachable state exists in which two correct replicas executed different batches. |
| `Equivocation.AgreementExactly` | src/pbft.rs:392-450 | The configurations in which the code guarantees execution agreement in all runs, as an if and only if. |
| `ExecutionModel.StateIsFold` | src/pbft.rs:392-422 | After any messages, the application state and client table are those of the sequential service run on the executed part of the log. |
| `ExecutionModel.AtMostOnce` | src/pbft.rs:401-419 | Over any run, a replica's application has taken exactly the calls of a history in which each client's request numbers strictly increase; its replies without the resent ones are the answers to that history, one for each execution and in order. |
| `ExecutionModel.RepliesStable` | src/pbft.rs:279-291 | Over any run, replies to the same request number of a client, first or resent, carry the same result. |
| `Primary.InFlightBound` | src/pbft.rs:296-313 | The op number never exceeds the number of committed certificates plus six, though batches are closed from two places and commits complete out of order. |
| `Primary.NoneWaitsBehindOpenWindow` | src/pbft.rs:383-389 | Requests wait only while the op number is at least six ahead of the execute number. |
| `Primary.BatchingConserves` | src/pbft.rs:296-314 | Batches 1 to op number followed by the waiting requests are the accepted requests in order and multiplicity, and batch `k` was sent once, as op number `k`. |
| `Reorder.StoredExactly` | src/pbft.rs:247-264 | A message makes a replica lose a pre-prepare of the current view exactly when it is for another view and displaces a buffered one still to be logged. |
| `Reorder.LosesNothingExactly` | src/pbft.rs:247-264 | Over a run, everything received for the current view is in the log or the buffer after every message, if and only if no pre-prepare for another view displaces a buffered one. |
| `Reorder.LogIsLongestRun` | src/pbft.rs:247-264 | For every arrival order with repeats, other views and interleaving, the log is the longest run 1..k received for the current view, with the contents received, when nothing is displaced. |
| `Reorder.DisplacedStopsShort` | src/pbft.rs:249-264 | Since views are checked after buffering, a replica that received 1 and 2 may end with a log of length 1 and an empty buffer. |
| `Reorder.Confluent` | src/pbft.rs:247-264 | Replicas that received the same pre-prepares of the current view in whatever orders, none displaced, have equal logs. |
| `ClusterRuns.ReachableReplica` | src/pbft.rs:241-422 | All single-replica run properties hold of every replica in every reachable cluster state. |
| `ClusterRuns.EntriesAreBatches` | src/pbft.rs:303-326 | With a correct primary, entry `k` of every correct replica, the primary included, holds exactly the primary's batch `k`. |
| `ClusterReplies.CallsAgree` | src/pbft.rs:392-422 | Under the three conditions above, the executions of two correct replicas, and the calls their applications took, are one a prefix of the other. |
| `ClusterReplies.RepliesAgree` | src/pbft.rs:279-291 | Under the three conditions above, any two replies by any correct replicas to one request number of one client carry one result, with up to `f` replicas signing anything. |
| `ClusterReplies.ConflictingReplies` | src/pbft.rs:432-440 | With a faulty primary and at least `f - 1` faulty replicas, a reachable state exists in which two correct replicas have answered one request with different results. |
| `ClusterReplies.RepliesAgreeExactly` | src/pbft.rs:392-450 | The configurations in which the code guarantees one result per request over all runs, as an if and only if. |
| `Service.ServeBatchesInv` | src/pbft.rs:401-419 | The reference service executes each request at most once, in order, each result being the application's on exactly the calls before it. |
| `Service.ServeBatchesGapless` | src/pbft.rs:401-419 | For closed-loop input with repeats, each client's executed numbers are exactly 1, 2, ..., m, and nothing given is left out. |
| `PbftClient.ResultNeedsQuorum` | src/pbft.rs:73-92 | A request completes exactly when `f + 1` distinct replicas have answered its number since it was sent, with one of their answers, and nothing from earlier requests counts. |
| `PbftClient.ResentWhenDue` | src/pbft.rs:43-70 | A started request is sent at once to the replica of the view, and again by a poll exactly if fifty units have passed. |
| `PbftClient.PollSends` | src/pbft.rs:62-70 | A poll sends a copy of the outstanding request exactly if its deadline has come, whatever arrives with it; the deadline of a client that still waits then lies ahead. |
| `PbftClient.AnyAnswerTaken` | src/pbft.rs:83-87 | When a request completes, the latest answer of any replica that has answered may be the one taken. |
| `PbftClient.FollowsView` | src/pbft.rs:82-113 | The reply that completes a request decides to which replica the next one is sent. |
| `PbftClient.TakenOnce` | src/pbft.rs:51-53 | A second taking of a result finds none. |
| `PbftClientObject.ClientState.constructor` | src/pbft.rs:28-39 | A new client is idle. |
| `PbftClientObject.ClientState.Invoke` | src/pbft.rs:43-49 | Starts the next request number; the idle assertion is its precondition. |
| `PbftClientObject.ClientState.DoSend` | src/pbft.rs:98-114 | Sends the outstanding operation under its number and sets the resend deadline. |
| `PbftClientObject.ClientState.Poll` | src/pbft.rs:61-94 | Resend, then count the reply; any choice of drained entry is covered. |
| `PbftClientObject.ClientState.TakeResult` | src/pbft.rs:51-53 | Hands out the result once. |
| `EndToEnd.ResultIsAgreed` | src/pbft.rs:42-115 | With all replicas correct, every result a client is given is that of the unique execution of the very request it sent, in the sequential run of the agreed batches. |
| `EndToEnd.SentToPrimary` | src/pbft.rs:98-114 | With all replicas correct, everything a client ever sends goes to the primary, and a request it has started has been sent. |
| `EndToEnd.ExecutedExactlyOnce` | src/pbft.rs:279-313 | With all replicas correct, each client's executed numbers are exactly 1..k with k its current number or one less, the former when idle; every replica has executed a gapless prefix of the agreed run: its application, its client table and its first replies are those of that prefix. |
| `ForgedReply.WrongResult` | src/pbft.rs:82-92 | With any faulty replica, answering under its own id only, a client can be given a result although a correct replica that executed the request computed another. |
| `ForgedReply.ResultsMatchExactly` | src/pbft.rs:82-92 | Every result given to a client, in all runs, is the one computed by the correct replicas that executed its request, if and only if no replica is faulty. |
| `UnreplicatedObjects.MainThread.constructor` | src/unreplicated.rs:130-137 | A new server is empty. |
| `UnreplicatedObjects.MainThread.HandleRequest` | src/unreplicated.rs:193-215 | Ignore, resend or log-and-execute, by the client table. |
| `UnreplicatedObjects.ClientState.constructor` | src/unreplicated.rs:21-30 | A new client is idle. |
| `UnreplicatedObjects.ClientState.Invoke` | src/unreplicated.rs:34-40 | Starts the next request number; the idle assertion is its precondition. |
| `UnreplicatedObjects.ClientState.DoSend` | src/unreplicated.rs:84-96 | Sends the outstanding operation and sets the resend deadline. |
| `UnreplicatedObjects.ClientState.Poll` | src/unreplicated.rs:52-80 | Resend, then accept only a reply to the current number. |
| `UnreplicatedObjects.ClientState.TakeResult` | src/unreplicated.rs:42-44 | Hands out the result once. |
| `Unreplicated.ResentWhenDue` | src/unreplicated.rs:34-60 | A started request is sent at once, and again by a poll exactly if ten units have passed. |
| `Unreplicated.PollSends` | src/unreplicated.rs:52-60 | A poll sends a copy of the outstanding request exactly if its deadline has come, whatever arrives with it; the deadline of a client that still waits then lies ahead. |
| `Unreplicated.CompletedByFirst` | src/unreplicated.rs:61-80 | Over any inputs a request is completed if and only if a reply to its number has arrived, by the first such reply. |
| `Unreplicated.TakenOnce` | src/unreplicated.rs:42-44 | A second taking of a result finds none. |
| `ExactlyOnce.NewIsAnswered` | src/unreplicated.rs:203-215 | A request not yet executed is logged and answered, at its address, with the result of the log up to and including it. |
| `ExactlyOnce.RepeatIsAnswered` | src/unreplicated.rs:193-202 | A repeat of a client's latest request is answered once more with the result of its execution, and anything older changes nothing. |
| `ExactlyOnce.AllAreAnswered` | src/unreplicated.rs:192-216 | In every run each log entry has been answered at its own address with the result the log gives for it, and each outstanding request has been sent. |
| `ExactlyOnce.LogIsExact` | src/unreplicated.rs:192-216 | At request number r the server log restricted to the client is 1..k in order with k = r - 1 or r, and k = r once the reply is accepted. |
| `ExactlyOnce.ResultIsExact` | src/unreplicated.rs:33-97 | The result a client holds is what the only log entry for its current request, as sent, gives in the sequential run of the log. |
| `AnyClient.PollAndRefill` | src/program/bench_client.rs:169-180 | Between polls exactly one operation is outstanding, the request number grows exactly with the results counted, and the invoke assertion holds. |
| `AnyClient.CountsExactly` | src/program/bench_client.rs:169-180 | A poll counts a result if and only if the datagram answers the outstanding request, and for PBFT brings the replicas that did above `f`; an empty operation is then started. |
| `AnyClient.RefillDeadline` | src/program/bench_client.rs:169-180 | After a poll the client's deadline lies ahead. |
| `AnyClient.CompletedUpdate` | src/program/bench_client.rs:174-177 | Replacing one client changes the total of completed requests by the change of its own number. |
| `BenchClient.Program.constructor` | src/program/bench_client.rs:63-73 | The index starts as the set of all (never, i), and nothing is counted. |
| `BenchClient.Program.First` | src/program/bench_client.rs:145 | The first index element is the earliest deadline of the array, the smaller index first among equals. |
| `BenchClient.Program.PollClient` | src/program/bench_client.rs:169-180 | Polls one client, counts its result and refills it, as the step `PollOneKeeps` is about; the invoke assertion holds. |
| `BenchClient.Program.PollUntilIdle` | src/program/bench_client.rs:147 | The client takes every datagram found and then one empty poll, in that order, and nothing else changes. |
| `BenchClient.Program.UpdateTimer` | src/program/bench_client.rs:182-194 | The removal assertion never fails, index and array agree afterwards, and only the stored deadline of this client changes, to its own. |
| `BenchClient.Program.InvokeAll` | src/program/bench_client.rs:129-131 | Every client is given its first operation and nothing else changes. |
| `BenchClient.Program.RunTurn` | src/program/bench_client.rs:144-166 | A turn serves the client with the earliest deadline until idle, if one is set, then polls the client of the first pending event, which stays pending until its socket is empty. |
| `BenchModel.PollOneKeeps` | src/program/bench_client.rs:169-180 | A poll keeps the count equal to the sum of (request number - 1) and leaves all other clients and every deadline alone. |
| `BenchModel.InvokedStarts` | src/program/bench_client.rs:129-131 | At the start every client has its first operation outstanding with a deadline still to come, and nothing is counted. |
| `BenchModel.TimerServesEarliest` | src/program/bench_client.rs:144-149 | A turn serves the client whose stored deadline comes before all others, the smaller index among equals, and nobody if none is set. |
| `BenchModel.EventTaken` | src/program/bench_client.rs:151-162 | The client of the first pending event takes exactly one input after the timer; the event stays pending if and only if a datagram came, and new events are looked for only when none is pending. |
| `BenchModel.ServedTakesAll` | src/program/bench_client.rs:146-148 | A served client has taken every datagram from the first to the last and then found its socket empty, all its results are counted, nobody else moved, and its stored deadline lies after that. |
| `BenchModel.TurnKeeps` | src/program/bench_client.rs:144-166 | A turn keeps the conservation law, and every stored deadline up to date except that of the client at the head of the pending events. |
| `BenchClient.Program.Run` | src/program/bench_client.rs:123-167 | The whole run is the setup of each client in order followed by the turns, with index and array in agreement throughout. |
| `BenchModel.RunKeeps` | src/program/bench_client.rs:123-167 | Over any run with any arrivals and events the results counted are those completed, one operation is outstanding per client, and only the deadline of the client being served may be stale. |

## Left out

- View change, checkpoints, log truncation, request forwarding and broadcast on resend: not implemented in the code.
- Sockets, epoll, threads, CPU binding, deployment, configuration and the launcher scripts: operating-system plumbing.
- bincode formats and the internals of secp256k1 and SHA-256: library code; a datagram that fails to decode is not delivered.
- Stored signatures: a vote table keeps the ids that voted, since nothing reads the signatures kept beside them.
- A vote naming an id outside 0..n-1: indexing the key table stops the crypto thread, so it is not delivered.
- The simulated network of the unit tests and the channel types: replaced by the record of what was sent.
- Liveness: a missed trigger can stop progress under early arrival, so only safety and termination of the loops are claimed.
- EndToEnd.ResultIsAgreed: holds with genuine clients and correct replicas, because replies are unsigned and a client compares none; requests and replies forged from outside are not modelled there.
- EndToEnd.ExecutedExactlyOnce: the same, because requests are trusted by the listener; the agreement results allow arbitrary requests.
- Wrap-around of 32-bit op and request numbers.
- Sharing of the result counter between benchmark threads and its reset by the reporter: `nResult` is what one program adds.
- A second clock reading inside one poll: one reading serves both the deadline comparison and the next deadline.
- The possible live-lock of polling one client for ever: the datagrams a client finds before its socket is empty are finite.
- BenchClient.Program.Run: the clients are held by value in an array, as the boxed slice owns them, and the run ends with the list of turns in place of the wall clock.
- Printing of resends, throughput and average batch size.
