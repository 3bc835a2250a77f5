/** The benchmark program as an object, with a timer index over the array of deadlines. */
module BenchClient {
  import opened Messages
  import opened Time
  import opened AnyClient
  import opened BenchModel
  import P = PbftClient

  lemma {:induction false} FirstExists(timers: set<Timer>) returns (first: Timer)
    requires timers != {}
    ensures first in timers && forall t :: t in timers ==> NotAfter(first, t)
    decreases |timers|
  {
    var t :| t in timers;
    if timers == {t} {
      first := t;
    } else {
      assert timers == {t} + (timers - {t});
      first := FirstExists(timers - {t});
      var least := if NotAfter(t, first) then t else first;
      forall x | x in timers ensures NotAfter(least, x) {
        assert x == t || x in timers - {t};
      }
      first := least;
    }
  }

  // ---------- One step more ----------

  lemma PollEachNext(b: Bench, i: nat, inputs: seq<P.Input>, k: nat)
    requires Ready(b) && i < |b.clients| && k < |inputs|
    ensures PollEach(b, i, inputs[..k + 1]) == PollOne(PollEach(b, i, inputs[..k]), i, inputs[k])
  {
    assert inputs[..k + 1][..k] == inputs[..k];
  }

  lemma SetupNext(b: Bench, setup: seq<Arrivals>, k: nat)
    requires Ready(b) && k < |setup| <= |b.clients|
    ensures SetupOf(b, setup[..k + 1]) == Served(SetupOf(b, setup[..k]), k, setup[k])
  {
    assert setup[..k + 1][..k] == setup[..k];
  }

  lemma TurnsNext(b: Bench, turns: seq<Turn>, k: nat)
    requires Ready(b) && (forall t :: t in turns ==> AreClients(|b.clients|, t.ready)) && k < |turns|
    ensures var r := TurnsOf(b, turns[..k]); TurnsOf(b, turns[..k + 1]) == TurnOf(r.0, r.1, turns[k])
  {
    assert turns[..k + 1][..k] == turns[..k];
  }

  class Program {
    const clients: array<Client>
    const pollInstants: array<Instant>
    var instantPolls: set<Timer>
    var nResult: nat

    /** The timer index mirrors the array of deadlines. */
    ghost predicate Indexed()
      reads this, pollInstants
    {
      && clients.Length == pollInstants.Length > 0
      && forall t :: t in instantPolls <==> t.1 < pollInstants.Length && t.0 == pollInstants[t.1]
    }

    ghost function State(): Bench
      reads this, clients, pollInstants
    {
      Bench(clients[..], pollInstants[..], nResult)
    }

    constructor (cs: seq<Client>)
      requires cs != []
      ensures Indexed() && State() == Bench(cs, seq(|cs|, _ => Never), 0)
      ensures fresh(clients) && fresh(pollInstants)
    {
      clients := new Client[|cs|](i requires 0 <= i < |cs| => cs[i]);
      pollInstants := new Instant[|cs|](_ => Never);
      instantPolls := set i: nat | i < |cs| :: (Never, i);
      nResult := 0;
    }

    /** The first element of the sorted index: the earliest stored deadline. */
    method First() returns (first: Timer)
      requires Indexed()
      ensures first.1 == Earliest(pollInstants[..]) && first.0 == pollInstants[first.1]
    {
      assert (pollInstants[0], 0) in instantPolls;
      ghost var witness0 := FirstExists(instantPolls);
      first :| first in instantPolls && forall t :: t in instantPolls ==> NotAfter(first, t);
      ghost var k := Earliest(pollInstants[..]);
      ghost var earliest: Timer := (pollInstants[..][k], k);
      assert earliest in instantPolls && NotAfter(first, earliest);
      assert first == (pollInstants[..][first.1], first.1) && NotAfter(earliest, first);
    }

    method PollClient(i: nat, input: P.Input) returns (again: bool)
      requires Ready(State()) && i < clients.Length
      modifies this`nResult, clients
      ensures State() == PollOne(old(State()), i, input)
      ensures again == input.incoming.Some?
    {
      PollCompletes(clients[i], input);
      clients[i] := Poll(clients[i], input);
      again := input.incoming.Some?;
      var (client, result) := TakeResult(clients[i]);
      clients[i] := client;
      if result.Some? {
        nResult := nResult + 1;
        clients[i] := AnyClient.Invoke(clients[i], [], input.now);
      }
      assert clients[..] == old(clients[..])[i := clients[i]];
    }

    /** Polls client `i` until its socket is empty. */
    method PollUntilIdle(i: nat, arrivals: Arrivals)
      requires Ready(State()) && i < clients.Length && arrivals.Valid()
      modifies this`nResult, clients
      ensures State() == PollEach(old(State()), i, arrivals.Inputs())
    {
      ghost var inputs := arrivals.Inputs();
      var k := 0;
      var again := true;
      while again
        invariant 0 <= k <= |arrivals.datagrams| + 1
        invariant k == |arrivals.datagrams| + 1 <==> !again
        invariant Ready(State()) && State() == PollEach(old(State()), i, inputs[..k])
        decreases |arrivals.datagrams| + 1 - k
      {
        var input := if k < |arrivals.datagrams| then arrivals.datagrams[k] else P.Input(arrivals.idleAt, None, 0);
        again := PollClient(i, input);
        PollEachNext(old(State()), i, inputs, k);
        k := k + 1;
      }
      assert inputs[..k] == inputs;
    }

    method UpdateTimer(i: nat)
      requires Indexed() && i < clients.Length
      modifies this`instantPolls, pollInstants
      ensures Indexed() && State() == Retimed(old(State()), i)
    {
      var pollAt := PollAt(clients[i]);
      if pollAt == pollInstants[i] {
        return;
      }
      var removed := (pollInstants[i], i) in instantPolls;
      assert removed;
      instantPolls := instantPolls - {(pollInstants[i], i)};
      instantPolls := instantPolls + {(pollAt, i)};
      pollInstants[i] := pollAt;
    }

    /** Gives every client its first operation. */
    method InvokeAll(now: nat)
      requires Idle(State())
      modifies clients
      ensures State() == Invoked(old(State()), now)
    {
      for i := 0 to clients.Length
        invariant forall j :: 0 <= j < i ==> clients[j] == AnyClient.Invoke(old(clients[j]), [], now)
        invariant forall j :: i <= j < clients.Length ==> clients[j] == old(clients[j])
      {
        clients[i] := AnyClient.Invoke(clients[i], [], now);
      }
    }

    /** The whole run; `events` are those not yet handled when time is up. */
    method Run(start: nat, setup: seq<Arrivals>, turns: seq<Turn>) returns (events: seq<nat>)
      requires Indexed() && Idle(State()) && |setup| == clients.Length
      requires forall a :: a in setup ==> a.Valid()
      requires forall t :: t in turns ==> t.timer.Valid() && AreClients(clients.Length, t.ready)
      modifies this, clients, pollInstants
      ensures Indexed() && (State(), events) == RunOf(old(State()), start, setup, turns)
      ensures Conserved(State()) && SyncedBut(State(), events)
    {
      InvokeAll(start);
      ghost var invoked := State();
      for i := 0 to clients.Length
        invariant Indexed() && Ready(State()) && State() == SetupOf(invoked, setup[..i])
      {
        PollUntilIdle(i, setup[i]);
        UpdateTimer(i);
        SetupNext(invoked, setup, i);
      }
      assert setup[..clients.Length] == setup;
      ghost var ready := State();
      events := [];
      for k := 0 to |turns|
        invariant Indexed() && Ready(State()) && (State(), events) == TurnsOf(ready, turns[..k])
      {
        events := RunTurn(turns[k], events);
        TurnsNext(ready, turns, k);
      }
      assert turns[..|turns|] == turns;
      RunKeeps(old(State()), start, setup, turns);
    }

    /** One turn of the run loop. */
    method RunTurn(turn: Turn, events0: seq<nat>) returns (events: seq<nat>)
      requires Indexed() && Ready(State()) && turn.timer.Valid()
      requires AreClients(clients.Length, events0) && AreClients(clients.Length, turn.ready)
      modifies this, clients, pollInstants
      ensures Indexed() && (State(), events) == TurnOf(old(State()), events0, turn)
    {
      events := events0;
      var first := First();
      if first.0.Before(Never) {
        PollUntilIdle(first.1, turn.timer);
        UpdateTimer(first.1);
      }
      if events == [] {
        events := turn.ready;
      }
      if events != [] {
        var i := events[0];
        var again := PollClient(i, turn.event);
        if !again {
          UpdateTimer(i);
          events := events[1..];
        }
      }
    }
  }
}
