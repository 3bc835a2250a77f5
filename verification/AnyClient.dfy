/** The clients a benchmark program drives: either protocol behind one interface. */
module AnyClient {
  import opened Messages
  import opened Time
  import P = PbftClient
  import U = Unreplicated

  datatype Client = Pbft(pbft: P.Client) | Plain(plain: U.Client)

  predicate Valid(c: Client) {
    match c
    case Pbft(p) => P.Valid(p)
    case Plain(u) => U.Valid(u)
  }

  function Op(c: Client): Option<Bytes> {
    match c
    case Pbft(p) => p.op
    case Plain(u) => u.op
  }

  function RequestNumber(c: Client): nat {
    match c
    case Pbft(p) => p.requestNumber
    case Plain(u) => u.requestNumber
  }

  function Result(c: Client): Option<Bytes> {
    match c
    case Pbft(p) => p.committedResult
    case Plain(u) => u.result
  }

  function PollAt(c: Client): Instant {
    match c
    case Pbft(p) => p.resendInstant
    case Plain(u) => u.resendInstant
  }

  function Invoke(c: Client, op: Bytes, now: nat): Client
    requires Valid(c) && Op(c).None?
  {
    match c
    case Pbft(p) => Pbft(P.Invoke(p, op, now))
    case Plain(u) => Plain(U.Invoke(u, op, now))
  }

  function Poll(c: Client, input: P.Input): Client
    requires Valid(c)
  {
    match c
    case Pbft(p) => Pbft(P.Poll(p, input.now, input.incoming, input.pick))
    case Plain(u) => Plain(U.Poll(u, input.now, input.incoming))
  }

  function TakeResult(c: Client): (Client, Option<Bytes>) {
    match c
    case Pbft(p) => var (p', r) := P.TakeResult(p); (Pbft(p'), r)
    case Plain(u) => var (u', r) := U.TakeResult(u); (Plain(u'), r)
  }

  /** Exactly one operation is outstanding and its resend deadline is set. */
  predicate Outstanding(c: Client) {
    Valid(c) && Op(c).Some? && Result(c).None? && RequestNumber(c) >= 1 && PollAt(c).At?
  }

  /** One poll, after which a completed operation is replaced by the next one. */
  function PollAndRefill(c: Client, input: P.Input): (r: (Client, bool))
    requires Outstanding(c)
    ensures Outstanding(r.0) && RequestNumber(r.0) == RequestNumber(c) + if r.1 then 1 else 0
  {
    PollCompletes(c, input);
    var (c', result) := TakeResult(Poll(c, input));
    if result.Some? then (Invoke(c', [], input.now), true) else (c', false)
  }

  /** A poll that yields a result leaves the client ready for the next `Invoke`. */
  lemma PollCompletes(c: Client, input: P.Input)
    requires Outstanding(c)
    ensures var c' := Poll(c, input);
            && Valid(c') && RequestNumber(c') == RequestNumber(c)
            && (Result(c').Some? <==> Op(c').None?)
            && Valid(TakeResult(c').0) && Op(TakeResult(c').0) == Op(c')
  {
  }

  /** A poll counts a result exactly when the datagram answers the outstanding request, and for PBFT
      brings the number of replicas that have done so above `f`. The next operation starts then. */
  lemma CountsExactly(c: Client, input: P.Input)
    requires Outstanding(c)
    ensures PollAndRefill(c, input).1 <==>
            && input.incoming.Some? && input.incoming.value.requestNumber == RequestNumber(c)
            && match c
               case Pbft(p) => |p.results.Keys + {input.incoming.value.replicaId}| > p.config.f
               case Plain(_) => true
    ensures Op(PollAndRefill(c, input).0) == if PollAndRefill(c, input).1 then Some([]) else Op(c)
  {
    if c.Pbft? && input.incoming.Some? {
      var reply := input.incoming.value;
      var results := c.pbft.results[reply.replicaId := reply.result];
      assert results.Keys == c.pbft.results.Keys + {reply.replicaId} && |results| == |results.Keys|;
    }
  }

  /** After a poll the deadline of the client lies ahead. */
  lemma RefillDeadline(c: Client, input: P.Input)
    requires Outstanding(c)
    ensures !PollAt(PollAndRefill(c, input).0).AtMost(At(input.now))
  {
    match c
    case Pbft(p) => P.PollSends(p, input.now, input.incoming, input.pick);
    case Plain(u) => U.PollSends(u, input.now, input.incoming);
  }

  /** How many operations a program's clients have completed, once each has one outstanding. */
  function Completed(cs: seq<Client>): int
    decreases |cs|
  {
    if cs == [] then 0 else Completed(cs[..|cs| - 1]) + RequestNumber(cs[|cs| - 1]) - 1
  }

  lemma {:induction false} CompletedUpdate(cs: seq<Client>, i: nat, c: Client)
    requires i < |cs|
    ensures Completed(cs[i := c]) == Completed(cs) + RequestNumber(c) - RequestNumber(cs[i])
    decreases |cs|
  {
    if i < |cs| - 1 {
      CompletedUpdate(cs[..|cs| - 1], i, c);
      assert cs[i := c][..|cs| - 1] == cs[..|cs| - 1][i := c];
    } else {
      assert cs[i := c][..|cs| - 1] == cs[..|cs| - 1];
    }
  }

  lemma {:induction false} CompletedAtStart(cs: seq<Client>)
    requires forall i :: 0 <= i < |cs| ==> RequestNumber(cs[i]) == 1
    ensures Completed(cs) == 0
    decreases |cs|
  {
    if cs != [] {
      CompletedAtStart(cs[..|cs| - 1]);
    }
  }
}
