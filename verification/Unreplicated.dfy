/** The unreplicated RPC baseline: one server, closed-loop clients. States are values here, with
    each operation a function; the classes in `UnreplicatedObjects` update them in place. */
module Unreplicated {
  import opened Messages
  import opened Time

  const RESEND_AFTER: nat := 10

  // ---------- Server ----------

  datatype Server = Server(
    app: App,
    clientTable: map<nat, Reply>,
    opNumber: nat,
    log: seq<Request>,
    toEffect: seq<(nat, Reply)>)

  function NewServer(respond: seq<Call> -> Bytes): Server {
    Server(App(respond, []), map[], 0, [], [])
  }

  function HandleRequest(s: Server, q: Request): Server {
    if Answered(s.clientTable, q) then
      var reply := s.clientTable[q.clientId];
      if reply.requestNumber > q.requestNumber then s
      else s.(toEffect := s.toEffect + [(q.addr, reply)])
    else
      var (app, result) := s.app.Execute(s.opNumber + 1, q.op);
      var reply := Reply(q.requestNumber, result, 0, 0);
      Server(app, s.clientTable[q.clientId := reply], s.opNumber + 1, s.log + [q], s.toEffect + [(q.addr, reply)])
  }

  // ---------- Client ----------

  datatype Client = Client(
    id: nat,
    addr: nat,
    requestNumber: nat,
    op: Option<Bytes>,
    result: Option<Bytes>,
    resendInstant: Instant,
    sent: seq<Request>)

  function NewClient(id: nat, addr: nat): Client {
    Client(id, addr, 0, None, None, Never, [])
  }

  predicate Valid(c: Client) {
    (c.op.None? ==> c.resendInstant == Never) &&
    (c.op.Some? ==> c.requestNumber >= 1 && c.result.None? && c.resendInstant.At?)
  }

  /** The request a client is waiting for. */
  function Outstanding(c: Client): Request
    requires c.op.Some?
  {
    Request(c.id, c.requestNumber, c.op.value, c.addr)
  }

  function DoSend(c: Client, now: nat): Client
    requires c.op.Some?
  {
    c.(sent := c.sent + [Outstanding(c)], resendInstant := At(now + RESEND_AFTER))
  }

  function Invoke(c: Client, op: Bytes, now: nat): Client
    requires Valid(c) && c.op.None?
  {
    DoSend(c.(requestNumber := c.requestNumber + 1, op := Some(op), result := None), now)
  }

  function Resend(c: Client, now: nat): Client
    requires Valid(c)
  {
    if c.resendInstant.AtMost(At(now)) then DoSend(c, now) else c
  }

  function Receive(c: Client, reply: Reply): Client {
    if c.op.None? || reply.requestNumber != c.requestNumber then c
    else c.(op := None, result := Some(reply.result), resendInstant := Never)
  }

  function Poll(c: Client, now: nat, incoming: Option<Reply>): (c': Client)
    requires Valid(c)
    ensures Valid(c') && c'.requestNumber == c.requestNumber
  {
    match incoming
    case None => Resend(c, now)
    case Some(reply) => Receive(Resend(c, now), reply)
  }

  function TakeResult(c: Client): (Client, Option<Bytes>) {
    (c.(result := None), c.result)
  }

  // ---------- Properties ----------

  /** A started request is sent at once, and a poll sends it again exactly if ten units have passed
      since it was last sent; then the wait starts over. */
  lemma ResentWhenDue(c: Client, op: Bytes, t: nat, t': nat)
    requires Valid(c) && c.op.None?
    ensures var q := Request(c.id, c.requestNumber + 1, op, c.addr);
            var c1 := Invoke(c, op, t);
            && c1.sent == c.sent + [q]
            && Poll(c1, t', None).sent == c1.sent + (if t' >= t + 10 then [q] else [])
            && Poll(c1, t', None).resendInstant == At((if t' >= t + 10 then t' else t) + 10)
  {
  }

  /** In any state, a poll sends a copy of the outstanding request if its deadline has come, whatever
      arrives with it, and sends nothing else. Afterwards the deadline of a waiting client lies ahead. */
  lemma PollSends(c: Client, now: nat, incoming: Option<Reply>)
    requires Valid(c)
    ensures Poll(c, now, incoming).sent ==
            c.sent + if c.op.Some? && c.resendInstant.AtMost(At(now)) then [Outstanding(c)] else []
    ensures Poll(c, now, incoming).op.Some? ==> !Poll(c, now, incoming).resendInstant.AtMost(At(now))
  {
  }

  function PollAll(c: Client, inputs: seq<(nat, Option<Reply>)>): (c': Client)
    requires Valid(c)
    ensures Valid(c') && c'.requestNumber == c.requestNumber
    decreases |inputs|
  {
    if inputs == [] then c
    else
      var i := inputs[|inputs| - 1];
      Poll(PollAll(c, inputs[..|inputs| - 1]), i.0, i.1)
  }

  predicate Answers(incoming: Option<Reply>, number: nat) {
    incoming.Some? && incoming.value.requestNumber == number
  }

  /** The result in the first reply to request `number`. */
  function FirstAnswer(inputs: seq<(nat, Option<Reply>)>, number: nat): Option<Bytes> {
    if inputs == [] then None
    else if Answers(inputs[0].1, number) then Some(inputs[0].1.value.result)
    else FirstAnswer(inputs[1..], number)
  }

  lemma {:induction false} FirstAnswerNext(inputs: seq<(nat, Option<Reply>)>, i: (nat, Option<Reply>), number: nat)
    ensures FirstAnswer(inputs + [i], number) ==
            if FirstAnswer(inputs, number).Some? then FirstAnswer(inputs, number)
            else if Answers(i.1, number) then Some(i.1.value.result) else None
  {
    if inputs != [] {
      assert (inputs + [i])[1..] == inputs[1..] + [i];
      FirstAnswerNext(inputs[1..], i, number);
    } else {
      assert (inputs + [i])[1..] == [];
    }
  }

  /** A request is completed exactly when a reply to its number has arrived, by the first such. */
  lemma {:induction false} CompletedByFirst(c: Client, inputs: seq<(nat, Option<Reply>)>)
    requires Valid(c) && c.op.Some?
    ensures var c', first := PollAll(c, inputs), FirstAnswer(inputs, c.requestNumber);
            c'.result == first && c'.op == if first.Some? then None else c.op
    decreases |inputs|
  {
    if inputs != [] {
      var init, i := inputs[..|inputs| - 1], inputs[|inputs| - 1];
      assert inputs == init + [i];
      CompletedByFirst(c, init);
      FirstAnswerNext(init, i, c.requestNumber);
    }
  }

  /** A result is handed out once. */
  lemma TakenOnce(c: Client)
    ensures var (c1, first) := TakeResult(c);
            first == c.result && TakeResult(c1).1 == None && c1.op == c.op && c1.sent == c.sent
  {
  }
}

/** The unreplicated server and client as objects. */
module UnreplicatedObjects {
  import opened Messages
  import opened Time
  import opened Unreplicated

  class MainThread {
    var app: App
    var clientTable: map<nat, Reply>
    var opNumber: nat
    var log: seq<Request>
    var toEffect: seq<(nat, Reply)>

    ghost function State(): Server
      reads this
    {
      Server(app, clientTable, opNumber, log, toEffect)
    }

    constructor (respond: seq<Call> -> Bytes)
      ensures State() == NewServer(respond)
    {
      app, clientTable, opNumber, log, toEffect := App(respond, []), map[], 0, [], [];
    }

    method HandleRequest(q: Request)
      modifies this
      ensures State() == Unreplicated.HandleRequest(old(State()), q)
    {
      if q.clientId in clientTable {
        var reply := clientTable[q.clientId];
        if reply.requestNumber > q.requestNumber {
          return;
        }
        if reply.requestNumber == q.requestNumber {
          toEffect := toEffect + [(q.addr, reply)];
          return;
        }
      }
      log := log + [q];
      opNumber := opNumber + 1;
      var (app', result) := app.Execute(opNumber, q.op);
      app := app';
      var reply := Reply(q.requestNumber, result, 0, 0);
      clientTable := clientTable[q.clientId := reply];
      toEffect := toEffect + [(q.addr, reply)];
    }
  }

  class ClientState {
    const id: nat
    const addr: nat
    var requestNumber: nat
    var op: Option<Bytes>
    var result: Option<Bytes>
    var resendInstant: Instant
    var sent: seq<Request>

    ghost function State(): Client
      reads this
    {
      Client(id, addr, requestNumber, op, result, resendInstant, sent)
    }

    constructor (id: nat, addr: nat)
      ensures State() == NewClient(id, addr) && Valid(State())
    {
      this.id, this.addr := id, addr;
      requestNumber, op, result, resendInstant, sent := 0, None, None, Never, [];
    }

    /** The precondition on `op` is the assertion the source makes on entry. */
    method Invoke(op: Bytes, now: nat)
      requires Valid(State()) && this.op.None?
      modifies this
      ensures State() == Unreplicated.Invoke(old(State()), op, now) && Valid(State())
    {
      requestNumber := requestNumber + 1;
      this.op := Some(op);
      result := None;
      DoSend(now);
    }

    method DoSend(now: nat)
      requires op.Some?
      modifies this
      ensures State() == Unreplicated.DoSend(old(State()), now)
    {
      sent := sent + [Request(id, requestNumber, op.value, addr)];
      resendInstant := At(now + RESEND_AFTER);
    }

    method Poll(now: nat, incoming: Option<Reply>) returns (again: bool)
      requires Valid(State())
      modifies this
      ensures State() == Unreplicated.Poll(old(State()), now, incoming) && Valid(State())
      ensures again == incoming.Some?
    {
      if resendInstant.AtMost(At(now)) {
        DoSend(now);
      }
      if incoming.None? {
        return false;
      }
      again := true;
      if op.Some? && incoming.value.requestNumber == requestNumber {
        op := None;
        result := Some(incoming.value.result);
        resendInstant := Never;
      }
    }

    method TakeResult() returns (taken: Option<Bytes>)
      modifies this
      ensures (State(), taken) == Unreplicated.TakeResult(old(State()))
    {
      taken := result;
      result := None;
    }
  }
}
