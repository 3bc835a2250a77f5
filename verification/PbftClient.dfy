/** The closed-loop PBFT client as a value, with each operation as a function. The class in
    `PbftClientObject` updates the same state in place. */
module PbftClient {
  import opened Messages
  import opened Sets
  import opened Time

  const RESEND_AFTER: nat := 50

  datatype Client = Client(
    id: nat,
    addr: nat,
    config: Config,
    requestNumber: nat,
    op: Option<Bytes>,
    results: map<nat, Bytes>,
    committedResult: Option<Bytes>,
    resendInstant: Instant,
    viewNumber: nat,
    sent: seq<(nat, Request)>)

  function New(id: nat, addr: nat, config: Config): Client {
    Client(id, addr, config, 0, None, map[], None, Never, 0, [])
  }

  /** `op` is present exactly while a request is outstanding, and votes are kept only then. */
  predicate Valid(c: Client) {
    && c.config.n > 0
    && (c.op.None? ==> c.results == map[] && c.resendInstant == Never)
    && (c.op.Some? ==>
          c.requestNumber >= 1 && |c.results| <= c.config.f && c.committedResult.None? && c.resendInstant.At?)
  }

  /** The request a client is waiting for. */
  function Outstanding(c: Client): Request
    requires c.op.Some?
  {
    Request(c.id, c.requestNumber, c.op.value, c.addr)
  }

  function DoSend(c: Client, now: nat): Client
    requires c.op.Some? && c.config.n > 0
  {
    c.(sent := c.sent + [(c.viewNumber % c.config.n, Outstanding(c))],
       resendInstant := At(now + RESEND_AFTER))
  }

  function Invoke(c: Client, op: Bytes, now: nat): Client
    requires Valid(c) && c.op.None?
  {
    DoSend(c.(requestNumber := c.requestNumber + 1, op := Some(op), committedResult := None), now)
  }

  /** `pick` stands for the choice that draining a hash map makes. */
  function Receive(c: Client, reply: Reply, pick: nat): Client {
    if c.op.None? || reply.requestNumber != c.requestNumber then c
    else
      var results := c.results[reply.replicaId := reply.result];
      if |results| > c.config.f then
        var key := if pick in results then pick else reply.replicaId;
        c.(results := map[], committedResult := Some(results[key]), viewNumber := reply.viewNumber,
           op := None, resendInstant := Never)
      else c.(results := results)
  }

  function Resend(c: Client, now: nat): Client
    requires Valid(c)
  {
    if c.resendInstant.AtMost(At(now)) then DoSend(c, now) else c
  }

  function Poll(c: Client, now: nat, incoming: Option<Reply>, pick: nat): Client
    requires Valid(c)
  {
    match incoming
    case None => Resend(c, now)
    case Some(reply) => Receive(Resend(c, now), reply, pick)
  }

  function TakeResult(c: Client): (Client, Option<Bytes>) {
    (c.(committedResult := None), c.committedResult)
  }

  // ---------- Properties ----------

  /** No operation breaks `Valid`; in particular a resend always has an operation to send. */
  lemma PollValid(c: Client, now: nat, incoming: Option<Reply>, pick: nat)
    requires Valid(c)
    ensures Valid(Poll(c, now, incoming, pick))
    ensures Poll(c, now, incoming, pick).requestNumber == c.requestNumber
    ensures c.resendInstant.AtMost(At(now)) ==> c.op.Some?
  {
  }

  /** A started request is sent at once to the replica of the view, and a poll sends it again exactly
      if fifty units have passed since it was last sent; then the wait starts over. */
  lemma ResentWhenDue(c: Client, op: Bytes, t: nat, t': nat)
    requires Valid(c) && c.op.None?
    ensures var m := (c.viewNumber % c.config.n, Request(c.id, c.requestNumber + 1, op, c.addr));
            var c1 := Invoke(c, op, t);
            && c1.sent == c.sent + [m]
            && Poll(c1, t', None, 0).sent == c1.sent + (if t' >= t + 50 then [m] else [])
            && Poll(c1, t', None, 0).resendInstant == At((if t' >= t + 50 then t' else t) + 50)
  {
  }

  /** In any state, a poll sends a copy of the outstanding request if its deadline has come, whatever
      arrives with it, and sends nothing else. Afterwards the deadline of a waiting client lies ahead. */
  lemma PollSends(c: Client, now: nat, incoming: Option<Reply>, pick: nat)
    requires Valid(c)
    ensures Poll(c, now, incoming, pick).sent ==
            c.sent + if c.op.Some? && c.resendInstant.AtMost(At(now))
                     then [(c.viewNumber % c.config.n, Outstanding(c))] else []
    ensures Poll(c, now, incoming, pick).op.Some? ==> !Poll(c, now, incoming, pick).resendInstant.AtMost(At(now))
  {
  }

  /** Which answer is taken is open: the latest of any replica that has answered may be the one. */
  lemma AnyAnswerTaken(c: Client, now: nat, reply: Reply, j: nat)
    requires Valid(c) && c.op.Some? && reply.requestNumber == c.requestNumber
    requires |c.results.Keys + {reply.replicaId}| > c.config.f && j in c.results.Keys + {reply.replicaId}
    ensures Poll(c, now, Some(reply), j).committedResult ==
            Some(if j == reply.replicaId then reply.result else c.results[j])
  {
    var results := c.results[reply.replicaId := reply.result];
    assert results.Keys == c.results.Keys + {reply.replicaId} && |results| == |results.Keys|;
  }

  /** The reply that completes a request decides to which replica the next one goes. */
  lemma FollowsView(c: Client, now: nat, reply: Reply, pick: nat, op: Bytes, t: nat)
    requires Valid(c) && c.op.Some? && Poll(c, now, Some(reply), pick).op.None?
    ensures Valid(Poll(c, now, Some(reply), pick))
    ensures var c1 := Poll(c, now, Some(reply), pick);
            Invoke(c1, op, t).sent ==
            c1.sent + [(reply.viewNumber % c.config.n, Request(c.id, c.requestNumber + 1, op, c.addr))]
  {
  }

  /** A result is handed out once. */
  lemma TakenOnce(c: Client)
    ensures var (c1, first) := TakeResult(c);
            first == c.committedResult && TakeResult(c1).1 == None && c1.op == c.op && c1.sent == c.sent
  {
  }

  datatype Input = Input(now: nat, incoming: Option<Reply>, pick: nat)

  function PollAll(c: Client, inputs: seq<Input>): (c': Client)
    requires Valid(c)
    ensures Valid(c') && c'.requestNumber == c.requestNumber && c'.config == c.config
    decreases |inputs|
  {
    if inputs == [] then c
    else
      var i := inputs[|inputs| - 1];
      var c1 := PollAll(c, inputs[..|inputs| - 1]);
      PollValid(c1, i.now, i.incoming, i.pick);
      Poll(c1, i.now, i.incoming, i.pick)
  }

  predicate Answers(i: Input, number: nat) {
    i.incoming.Some? && i.incoming.value.requestNumber == number
  }

  /** The replicas that answered request `number` among `inputs`. */
  function Answerers(inputs: seq<Input>, number: nat): set<nat>
    decreases |inputs|
  {
    if inputs == [] then {}
    else
      var i := inputs[|inputs| - 1];
      Answerers(inputs[..|inputs| - 1], number) + if Answers(i, number) then {i.incoming.value.replicaId} else {}
  }

  /** Some reply among `inputs` answers request `number` with `result`. */
  ghost predicate Given(inputs: seq<Input>, number: nat, result: Bytes) {
    exists i :: i in inputs && Answers(i, number) && i.incoming.value.result == result
  }

  /** `c'` is what becomes of the outstanding request of `c` after `inputs`. */
  ghost predicate Outcome(c: Client, inputs: seq<Input>, c': Client) {
    var answerers := Answerers(inputs, c.requestNumber);
    if |answerers| > c.config.f then
      c'.op.None? && c'.committedResult.Some? && Given(inputs, c.requestNumber, c'.committedResult.value)
    else
      c'.op == c.op && c'.committedResult.None? && c'.results.Keys == answerers &&
      forall j :: j in c'.results ==> Given(inputs, c.requestNumber, c'.results[j])
  }

  /** Two clients that differ only in what a resend changes. */
  ghost predicate SameProgress(c: Client, c': Client) {
    c'.requestNumber == c.requestNumber && c'.config == c.config && c'.op == c.op &&
    c'.results == c.results && c'.committedResult == c.committedResult
  }

  lemma OutcomeQuiet(c: Client, inputs: seq<Input>, c1: Client, c2: Client)
    requires inputs != []
    requires Outcome(c, inputs[..|inputs| - 1], c1) && SameProgress(c1, c2)
    requires Answers(inputs[|inputs| - 1], c.requestNumber) ==>
               |Answerers(inputs[..|inputs| - 1], c.requestNumber)| > c.config.f
    ensures Outcome(c, inputs, c2)
  {
    var init := inputs[..|inputs| - 1];
    AnswerersGrow(init, inputs, c.requestNumber);
  }

  lemma OutcomeAnswer(c: Client, inputs: seq<Input>, i: Input, c1: Client)
    requires inputs != [] && i == inputs[|inputs| - 1]
    requires c.op.Some? && c1.op == c.op && c1.requestNumber == c.requestNumber && c1.config == c.config
    requires Outcome(c, inputs[..|inputs| - 1], c1) && Answers(i, c.requestNumber)
    ensures Outcome(c, inputs, Receive(c1, i.incoming.value, i.pick))
  {
    AnswerCounted(inputs, i, c.requestNumber, c1.results);
    AnswerGiven(inputs, i, c.requestNumber, c1.results);
  }

  lemma AnswerCounted(inputs: seq<Input>, i: Input, number: nat, results: map<nat, Bytes>)
    requires inputs != [] && i == inputs[|inputs| - 1] && Answers(i, number)
    requires results.Keys == Answerers(inputs[..|inputs| - 1], number)
    ensures var results' := results[i.incoming.value.replicaId := i.incoming.value.result];
            results'.Keys == Answerers(inputs, number) && |results'| == |Answerers(inputs, number)|
  {
    var results' := results[i.incoming.value.replicaId := i.incoming.value.result];
    assert results'.Keys == Answerers(inputs, number);
    assert |results'| == |results'.Keys|;
  }

  lemma AnswerGiven(inputs: seq<Input>, i: Input, number: nat, results: map<nat, Bytes>)
    requires inputs != [] && i == inputs[|inputs| - 1] && Answers(i, number)
    requires forall j :: j in results ==> Given(inputs[..|inputs| - 1], number, results[j])
    ensures var results' := results[i.incoming.value.replicaId := i.incoming.value.result];
            forall j :: j in results' ==> Given(inputs, number, results'[j])
  {
  }

  lemma OutcomeStep(c: Client, inputs: seq<Input>, i: Input, c1: Client)
    requires inputs != [] && i == inputs[|inputs| - 1]
    requires Valid(c1) && c.op.Some? && c1.requestNumber == c.requestNumber && c1.config == c.config
    requires Outcome(c, inputs[..|inputs| - 1], c1)
    ensures Outcome(c, inputs, Poll(c1, i.now, i.incoming, i.pick))
  {
    var c2 := Resend(c1, i.now);
    assert SameProgress(c1, c2);
    if c1.op.Some? && Answers(i, c.requestNumber) {
      OutcomeAnswer(c, inputs, i, c2);
    } else {
      OutcomeQuiet(c, inputs, c1, Poll(c1, i.now, i.incoming, i.pick));
    }
  }

  /** A request that was just sent is completed exactly when `f + 1` distinct replicas have
      answered its number since, and the result is one of their answers. Nothing left over from
      earlier requests counts. */
  lemma {:induction false} ResultNeedsQuorum(c: Client, inputs: seq<Input>)
    requires Valid(c) && c.op.Some? && c.results == map[]
    ensures Outcome(c, inputs, PollAll(c, inputs))
    decreases |inputs|
  {
    if inputs != [] {
      var init := inputs[..|inputs| - 1];
      ResultNeedsQuorum(c, init);
      OutcomeStep(c, inputs, inputs[|inputs| - 1], PollAll(c, init));
    }
  }

  lemma AnswerersGrow(init: seq<Input>, inputs: seq<Input>, number: nat)
    requires inputs != [] && init == inputs[..|inputs| - 1]
    ensures |Answerers(init, number)| <= |Answerers(inputs, number)|
  {
    SubsetSize(Answerers(init, number), Answerers(inputs, number));
  }
}

/** The PBFT client as an object; every method moves it as its function in `PbftClient` does. */
module PbftClientObject {
  import opened Messages
  import opened Time
  import opened PbftClient

  class ClientState {
    const id: nat
    const addr: nat
    const config: Config
    var requestNumber: nat
    var op: Option<Bytes>
    var results: map<nat, Bytes>
    var committedResult: Option<Bytes>
    var resendInstant: Instant
    var viewNumber: nat
    var sent: seq<(nat, Request)>

    ghost function State(): Client
      reads this
    {
      Client(id, addr, config, requestNumber, op, results, committedResult, resendInstant, viewNumber, sent)
    }

    constructor (id: nat, addr: nat, config: Config)
      requires config.n > 0
      ensures State() == New(id, addr, config) && Valid(State())
    {
      this.id, this.addr, this.config := id, addr, config;
      requestNumber, op, results, committedResult := 0, None, map[], None;
      resendInstant, viewNumber, sent := Never, 0, [];
    }

    /** The precondition on `op` is the assertion the source makes on entry. */
    method Invoke(op: Bytes, now: nat)
      requires Valid(State()) && this.op.None?
      modifies this
      ensures State() == PbftClient.Invoke(old(State()), op, now)
      ensures Valid(State()) && this.op.Some?
    {
      requestNumber := requestNumber + 1;
      this.op := Some(op);
      committedResult := None;
      DoSend(now);
    }

    method DoSend(now: nat)
      requires op.Some? && config.n > 0
      modifies this
      ensures State() == PbftClient.DoSend(old(State()), now)
    {
      sent := sent + [(viewNumber % config.n, Request(id, requestNumber, op.value, addr))];
      resendInstant := At(now + RESEND_AFTER);
    }

    method Poll(now: nat, incoming: Option<Reply>) returns (again: bool, ghost pick: nat)
      requires Valid(State())
      modifies this
      ensures State() == PbftClient.Poll(old(State()), now, incoming, pick) && Valid(State())
      ensures again == incoming.Some?
    {
      pick := 0;
      if resendInstant.AtMost(At(now)) {
        DoSend(now);
      }
      if incoming.None? {
        return false, pick;
      }
      again := true;
      var reply := incoming.value;
      if op.Some? && reply.requestNumber == requestNumber {
        results := results[reply.replicaId := reply.result];
        if |results| > config.f {
          assert reply.replicaId in results;
          var key :| key in results;
          pick := key;
          committedResult := Some(results[key]);
          results := map[];
          viewNumber := reply.viewNumber;
          op := None;
          resendInstant := Never;
        }
      }
    }

    method TakeResult() returns (result: Option<Bytes>)
      modifies this
      ensures (State(), result) == PbftClient.TakeResult(old(State()))
    {
      result := committedResult;
      committedResult := None;
    }
  }
}
