/** The benchmark program as a value: many closed-loop clients on one thread, with their deadlines.
    The class in `BenchClient` updates the same state in place. */
module BenchModel {
  import opened Messages
  import opened Time
  import opened AnyClient
  import P = PbftClient

  type Timer = (Instant, nat)

  predicate NotAfter(a: Timer, b: Timer) {
    a.0.Before(b.0) || (a.0 == b.0 && a.1 <= b.1)
  }

  /** The datagrams one client finds in its socket until it is empty, and when it is found empty. */
  datatype Arrivals = Arrivals(datagrams: seq<P.Input>, idleAt: nat) {
    predicate Valid() {
      forall d :: d in datagrams ==> d.incoming.Some?
    }

    /** The polls it takes to find them all. */
    function Inputs(): seq<P.Input> {
      datagrams + [P.Input(idleAt, None, 0)]
    }
  }

  /** What the environment supplies to one turn of the run loop. */
  datatype Turn = Turn(timer: Arrivals, ready: seq<nat>, event: P.Input)

  /** The clients, the deadline stored for each of them, and the results counted. */
  datatype Bench = Bench(clients: seq<Client>, instants: seq<Instant>, nResult: nat)

  /** Every client has one operation outstanding. */
  predicate Ready(b: Bench) {
    |b.clients| == |b.instants| > 0 && forall i :: 0 <= i < |b.clients| ==> Outstanding(b.clients[i])
  }

  /** The results counted are those the clients have completed. */
  predicate Conserved(b: Bench) {
    b.nResult == Completed(b.clients)
  }

  /** The stored deadline of client `i` is up to date. */
  predicate Synced(b: Bench, i: nat) {
    i < |b.clients| == |b.instants| && b.instants[i] == PollAt(b.clients[i])
  }

  /** Every stored deadline but that of the client at the head of `events` is up to date. */
  predicate SyncedBut(b: Bench, events: seq<nat>) {
    forall i: nat :: i < |b.clients| && (events == [] || i != events[0]) ==> Synced(b, i)
  }

  /** The events of an epoll result name clients. */
  predicate AreClients(n: nat, ids: seq<nat>) {
    forall k :: 0 <= k < |ids| ==> ids[k] < n
  }

  function PollOne(b: Bench, i: nat, input: P.Input): (b': Bench)
    requires Ready(b) && i < |b.clients|
    ensures Ready(b') && |b'.clients| == |b.clients|
  {
    var (client, completed) := PollAndRefill(b.clients[i], input);
    b.(clients := b.clients[i := client], nResult := b.nResult + if completed then 1 else 0)
  }

  function PollEach(b: Bench, i: nat, inputs: seq<P.Input>): (b': Bench)
    requires Ready(b) && i < |b.clients|
    ensures Ready(b') && |b'.clients| == |b.clients|
    decreases |inputs|
  {
    if inputs == [] then b else PollOne(PollEach(b, i, inputs[..|inputs| - 1]), i, inputs[|inputs| - 1])
  }

  function Retimed(b: Bench, i: nat): (b': Bench)
    requires i < |b.clients| == |b.instants|
    ensures Ready(b) ==> Ready(b')
  {
    b.(instants := b.instants[i := PollAt(b.clients[i])])
  }

  /** Client `i` polled until its socket is empty and its deadline stored. */
  function Served(b: Bench, i: nat, arrivals: Arrivals): (b': Bench)
    requires Ready(b) && i < |b.clients|
    ensures Ready(b') && |b'.clients| == |b.clients|
  {
    Retimed(PollEach(b, i, arrivals.Inputs()), i)
  }

  /** The client whose stored deadline comes first, the one with the smaller index among equals. */
  function Earliest(instants: seq<Instant>): (first: nat)
    requires instants != []
    ensures first < |instants|
    ensures forall j :: 0 <= j < |instants| ==> NotAfter((instants[first], first), (instants[j], j))
    decreases |instants|
  {
    var last := |instants| - 1;
    if last == 0 then 0
    else
      var first := Earliest(instants[..last]);
      if instants[last].Before(instants[first]) then last else first
  }

  predicate DeadlineSet(b: Bench)
    requires Ready(b)
  {
    b.instants[Earliest(b.instants)].Before(Never)
  }

  /** The part of a turn that serves the timer. */
  function TimerServed(b: Bench, arrivals: Arrivals): (b': Bench)
    requires Ready(b)
    ensures Ready(b') && |b'.clients| == |b.clients|
  {
    if DeadlineSet(b) then Served(b, Earliest(b.instants), arrivals) else b
  }

  /** The part of a turn that serves the first pending event, which stays until its socket is empty. */
  function EventServed(b: Bench, events: seq<nat>, input: P.Input): (r: (Bench, seq<nat>))
    requires Ready(b) && AreClients(|b.clients|, events)
    ensures Ready(r.0) && |r.0.clients| == |b.clients| && AreClients(|b.clients|, r.1)
  {
    if events == [] then (b, events)
    else if input.incoming.Some? then (PollOne(b, events[0], input), events)
    else (Retimed(PollOne(b, events[0], input), events[0]), events[1..])
  }

  function TurnOf(b: Bench, events: seq<nat>, turn: Turn): (r: (Bench, seq<nat>))
    requires Ready(b) && AreClients(|b.clients|, events) && AreClients(|b.clients|, turn.ready)
    ensures Ready(r.0) && |r.0.clients| == |b.clients| && AreClients(|b.clients|, r.1)
  {
    EventServed(TimerServed(b, turn.timer), if events == [] then turn.ready else events, turn.event)
  }

  /** The first clients served one after another, one for each of `setup`. */
  function SetupOf(b: Bench, setup: seq<Arrivals>): (b': Bench)
    requires Ready(b) && |setup| <= |b.clients|
    ensures Ready(b') && |b'.clients| == |b.clients|
    decreases |setup|
  {
    if setup == [] then b
    else Served(SetupOf(b, setup[..|setup| - 1]), |setup| - 1, setup[|setup| - 1])
  }

  function TurnsOf(b: Bench, turns: seq<Turn>): (r: (Bench, seq<nat>))
    requires Ready(b) && forall t :: t in turns ==> AreClients(|b.clients|, t.ready)
    ensures Ready(r.0) && |r.0.clients| == |b.clients| && AreClients(|b.clients|, r.1)
    decreases |turns|
  {
    if turns == [] then (b, [])
    else
      var r := TurnsOf(b, turns[..|turns| - 1]);
      TurnOf(r.0, r.1, turns[|turns| - 1])
  }

  /** No client has been given an operation yet. */
  predicate Idle(b: Bench) {
    && |b.clients| == |b.instants| > 0 && b.nResult == 0
    && forall i :: 0 <= i < |b.clients| ==>
         Valid(b.clients[i]) && Op(b.clients[i]).None? && RequestNumber(b.clients[i]) == 0
  }

  function Invoked(b: Bench, now: nat): (b': Bench)
    requires Idle(b)
    ensures Ready(b') && |b'.clients| == |b.clients|
  {
    b.(clients := seq(|b.clients|, i requires 0 <= i < |b.clients| => AnyClient.Invoke(b.clients[i], [], now)))
  }

  function RunOf(b: Bench, start: nat, setup: seq<Arrivals>, turns: seq<Turn>): (Bench, seq<nat>)
    requires Idle(b) && |setup| == |b.clients| && forall t :: t in turns ==> AreClients(|b.clients|, t.ready)
  {
    TurnsOf(SetupOf(Invoked(b, start), setup), turns)
  }

  // ---------- What a run keeps ----------

  /** `b'` differs from `b` at most in client `i` and what is stored for it. */
  ghost predicate Elsewhere(b: Bench, b': Bench, i: nat) {
    && |b'.clients| == |b.clients| == |b.instants| == |b'.instants|
    && forall j :: 0 <= j < |b.clients| && j != i ==> b'.clients[j] == b.clients[j] && b'.instants[j] == b.instants[j]
  }

  lemma PollOneKeeps(b: Bench, i: nat, input: P.Input)
    requires Ready(b) && i < |b.clients| && Conserved(b)
    ensures Conserved(PollOne(b, i, input)) && Elsewhere(b, PollOne(b, i, input), i)
  {
    CompletedUpdate(b.clients, i, PollAndRefill(b.clients[i], input).0);
  }

  lemma {:induction false} PollEachKeeps(b: Bench, i: nat, inputs: seq<P.Input>)
    requires Ready(b) && i < |b.clients| && Conserved(b)
    ensures Conserved(PollEach(b, i, inputs)) && Elsewhere(b, PollEach(b, i, inputs), i)
    decreases |inputs|
  {
    if inputs != [] {
      PollEachKeeps(b, i, inputs[..|inputs| - 1]);
      PollOneKeeps(PollEach(b, i, inputs[..|inputs| - 1]), i, inputs[|inputs| - 1]);
    }
  }

  lemma ServedKeeps(b: Bench, i: nat, arrivals: Arrivals)
    requires Ready(b) && i < |b.clients| && Conserved(b)
    ensures Conserved(Served(b, i, arrivals)) && Elsewhere(b, Served(b, i, arrivals), i)
    ensures Synced(Served(b, i, arrivals), i)
  {
    PollEachKeeps(b, i, arrivals.Inputs());
  }

  lemma SyncedElsewhere(b: Bench, b': Bench, i: nat, events: seq<nat>)
    requires SyncedBut(b, events) && Elsewhere(b, b', i) && Synced(b', i)
    ensures SyncedBut(b', events)
  {
    forall j: nat | j < |b'.clients| && (events == [] || j != events[0]) ensures Synced(b', j) {
      if j != i {
        assert Synced(b, j);
      }
    }
  }

  lemma EventKeeps(b: Bench, events: seq<nat>, input: P.Input)
    requires Ready(b) && AreClients(|b.clients|, events) && Conserved(b) && SyncedBut(b, events)
    ensures var r := EventServed(b, events, input); Conserved(r.0) && SyncedBut(r.0, r.1)
  {
    if events != [] {
      var i := events[0];
      var b' := EventServed(b, events, input).0;
      PollOneKeeps(b, i, input);
      forall j: nat | j < |b.clients| && (j != i || input.incoming.None?) ensures Synced(b', j) {
        if j != i {
          assert Synced(b, j);
        }
      }
    }
  }

  lemma TurnKeeps(b: Bench, events: seq<nat>, turn: Turn)
    requires Ready(b) && AreClients(|b.clients|, events) && AreClients(|b.clients|, turn.ready)
    requires Conserved(b) && SyncedBut(b, events)
    ensures var r := TurnOf(b, events, turn); Conserved(r.0) && SyncedBut(r.0, r.1)
  {
    var b1 := TimerServed(b, turn.timer);
    if DeadlineSet(b) {
      var i := Earliest(b.instants);
      ServedKeeps(b, i, turn.timer);
      SyncedElsewhere(b, b1, i, events);
    }
    EventKeeps(b1, if events == [] then turn.ready else events, turn.event);
  }

  lemma {:induction false} SetupKeeps(b: Bench, setup: seq<Arrivals>)
    requires Ready(b) && |setup| <= |b.clients| && Conserved(b)
    ensures Conserved(SetupOf(b, setup)) && forall i: nat :: i < |setup| ==> Synced(SetupOf(b, setup), i)
    decreases |setup|
  {
    if setup != [] {
      var k := |setup| - 1;
      var b1 := SetupOf(b, setup[..k]);
      SetupKeeps(b, setup[..k]);
      ServedKeeps(b1, k, setup[k]);
      forall i: nat | i < |setup| ensures Synced(SetupOf(b, setup), i) {
        if i != k {
          assert Synced(b1, i);
        }
      }
    }
  }

  lemma {:induction false} TurnsKeep(b: Bench, turns: seq<Turn>)
    requires Ready(b) && forall t :: t in turns ==> AreClients(|b.clients|, t.ready)
    requires Conserved(b) && SyncedBut(b, [])
    ensures var r := TurnsOf(b, turns); Conserved(r.0) && SyncedBut(r.0, r.1)
    decreases |turns|
  {
    if turns != [] {
      var r := TurnsOf(b, turns[..|turns| - 1]);
      TurnsKeep(b, turns[..|turns| - 1]);
      TurnKeeps(r.0, r.1, turns[|turns| - 1]);
    }
  }

  /** Over any run the results counted are those the clients have completed, and no stored deadline
      is out of date but that of the client whose event is being served. */
  lemma RunKeeps(b: Bench, start: nat, setup: seq<Arrivals>, turns: seq<Turn>)
    requires Idle(b) && |setup| == |b.clients| && forall t :: t in turns ==> AreClients(|b.clients|, t.ready)
    ensures var r := RunOf(b, start, setup, turns); Ready(r.0) && Conserved(r.0) && SyncedBut(r.0, r.1)
  {
    var b1 := Invoked(b, start);
    CompletedAtStart(b1.clients);
    SetupKeeps(b1, setup);
    TurnsKeep(SetupOf(b1, setup), turns);
  }

  // ---------- Who is served, and with what ----------

  /** At the start every client has its first operation outstanding, and is due only later. */
  lemma InvokedStarts(b: Bench, now: nat)
    requires Idle(b)
    ensures var b' := Invoked(b, now);
            b'.instants == b.instants && b'.nResult == 0 &&
            forall i :: 0 <= i < |b'.clients| ==>
              Op(b'.clients[i]) == Some([]) && RequestNumber(b'.clients[i]) == 1 &&
              !PollAt(b'.clients[i]).AtMost(At(now))
  {
  }

  lemma EarliestIs(instants: seq<Instant>, i: nat)
    requires i < |instants| && forall j :: 0 <= j < |instants| ==> NotAfter((instants[i], i), (instants[j], j))
    ensures Earliest(instants) == i
  {
    var k := Earliest(instants);
    assert NotAfter((instants[i], i), (instants[k], k)) && NotAfter((instants[k], k), (instants[i], i));
  }

  /** The timer serves the client whose deadline comes before all others, once its deadline is set,
      and no client if none is. */
  lemma TimerServesEarliest(b: Bench, i: nat, arrivals: Arrivals)
    requires Ready(b) && i < |b.clients|
    requires forall j :: 0 <= j < |b.clients| ==> NotAfter((b.instants[i], i), (b.instants[j], j))
    ensures forall input :: TurnOf(b, [], Turn(arrivals, [], input)) ==
              (if b.instants[i].At? then Served(b, i, arrivals) else b, [])
  {
    EarliestIs(b.instants, i);
  }

  /** After the timer, the client of the first pending event takes exactly the one input, pending
      events coming before new ones; it stays pending exactly when a datagram came. */
  lemma EventTaken(b: Bench, events: seq<nat>, turn: Turn)
    requires Ready(b) && AreClients(|b.clients|, events) && AreClients(|b.clients|, turn.ready)
    ensures var b1, pending := TimerServed(b, turn.timer), if events == [] then turn.ready else events;
            var (b2, rest) := TurnOf(b, events, turn);
            if pending == [] then b2 == b1 && rest == []
            else
              && Elsewhere(b1, b2, pending[0])
              && b2.clients[pending[0]] == PollAndRefill(b1.clients[pending[0]], turn.event).0
              && (turn.event.incoming.Some? ==> rest == pending)
              && (turn.event.incoming.None? ==> rest == pending[1..] && Synced(b2, pending[0]))
  {
  }

  /** A client given `inputs` from the first to the last, and how often it completed an operation. */
  function Fed(c: Client, inputs: seq<P.Input>): (r: (Client, nat))
    requires Outstanding(c)
    ensures Outstanding(r.0)
    decreases |inputs|
  {
    if inputs == [] then (c, 0)
    else
      var (c1, completed) := PollAndRefill(c, inputs[0]);
      var (c', n) := Fed(c1, inputs[1..]);
      (c', n + if completed then 1 else 0)
  }

  lemma {:induction false} FedNext(c: Client, inputs: seq<P.Input>, input: P.Input)
    requires Outstanding(c)
    ensures var (c1, n) := Fed(c, inputs);
            var (c2, completed) := PollAndRefill(c1, input);
            Fed(c, inputs + [input]) == (c2, n + if completed then 1 else 0)
    decreases |inputs|
  {
    if inputs != [] {
      assert (inputs + [input])[1..] == inputs[1..] + [input];
      FedNext(PollAndRefill(c, inputs[0]).0, inputs[1..], input);
    } else {
      assert (inputs + [input])[1..] == [];
    }
  }

  lemma {:induction false} PollEachFeeds(b: Bench, i: nat, inputs: seq<P.Input>)
    requires Ready(b) && i < |b.clients|
    ensures var b' := PollEach(b, i, inputs);
            && b'.clients == b.clients[i := Fed(b.clients[i], inputs).0] && b'.instants == b.instants
            && b'.nResult == b.nResult + Fed(b.clients[i], inputs).1
    decreases |inputs|
  {
    if inputs != [] {
      var init, input := inputs[..|inputs| - 1], inputs[|inputs| - 1];
      assert inputs == init + [input];
      PollEachFeeds(b, i, init);
      FedNext(b.clients[i], init, input);
    }
  }

  /** A served client has taken every datagram in order and then found its socket empty, all its
      results are counted, and its stored deadline lies after that. */
  lemma ServedTakesAll(b: Bench, i: nat, arrivals: Arrivals)
    requires Ready(b) && i < |b.clients|
    ensures var fed := Fed(b.clients[i], arrivals.datagrams + [P.Input(arrivals.idleAt, None, 0)]);
            var b' := Served(b, i, arrivals);
            && b'.clients == b.clients[i := fed.0] && b'.nResult == b.nResult + fed.1
            && b'.instants == b.instants[i := PollAt(fed.0)] && !PollAt(fed.0).AtMost(At(arrivals.idleAt))
  {
    var idle := P.Input(arrivals.idleAt, None, 0);
    PollEachFeeds(b, i, arrivals.Inputs());
    FedNext(b.clients[i], arrivals.datagrams, idle);
    RefillDeadline(Fed(b.clients[i], arrivals.datagrams).0, idle);
  }
}
