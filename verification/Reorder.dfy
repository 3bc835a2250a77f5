/** The reorder buffer: the log does not depend on the order in which pre-prepares arrive, unless one
    for another view displaces a buffered one. The handler buffers before it looks at the view. */
module Reorder {
  import opened Messages
  import opened ReplicaModel
  import opened Invariants

  predicate IsCurrent(m: ToReplica) {
    m.ToPrePrepare? && m.prePrepare.viewNumber == 0
  }

  /** The op numbers of the pre-prepares in `ms` that are for the current view. */
  ghost predicate Received(ms: seq<ToReplica>, k: nat) {
    exists m :: m in ms && IsCurrent(m) && m.prePrepare.opNumber == k
  }

  predicate SameOpNumber(m: ToReplica, m': ToReplica) {
    IsCurrent(m) && IsCurrent(m') && m.prePrepare.opNumber == m'.prePrepare.opNumber
  }

  /** In the current view, one op number has one content. */
  ghost predicate Consistent(ms: seq<ToReplica>) {
    && (forall m :: m in ms ==> Hashed(m))
    && (forall m, m' :: m in ms && m' in ms && SameOpNumber(m, m') ==> m == m')
  }

  function AsMessage(e: LogEntry): ToReplica {
    ToPrePrepare(e.prePrepare, e.requests)
  }

  /** What is stored was received. */
  ghost predicate Contained(r: Replica, ms: seq<ToReplica>) {
    (forall e :: e in r.log ==> AsMessage(e) in ms) && (forall k :: k in r.reorder ==> AsMessage(r.reorder[k]) in ms)
  }

  predicate BuffersCurrent(r: Replica, k: nat) {
    k in r.reorder && r.reorder[k].prePrepare.viewNumber == 0
  }

  /** Op number `k` of the current view is in the log or in the buffer. */
  predicate Holds(r: Replica, k: nat) {
    k <= |r.log| || BuffersCurrent(r, k)
  }

  /** What is stored was received, and what was received for the current view is stored. */
  ghost predicate Stored(r: Replica, ms: seq<ToReplica>) {
    Contained(r, ms) && forall m :: m in ms && IsCurrent(m) ==> Holds(r, m.prePrepare.opNumber)
  }

  /** `m` is for another view and takes the place of a buffered pre-prepare still to be logged. */
  predicate Displaces(r: Replica, m: ToReplica) {
    m.ToPrePrepare? && !IsCurrent(m) && m.prePrepare.opNumber > NextEntry(r) && BuffersCurrent(r, m.prePrepare.opNumber)
  }

  // ---------- One message ----------

  lemma HandleContained(r: Replica, e: LogEntry, ms: seq<ToReplica>)
    requires Contained(r, ms) && AsMessage(e) in ms
    ensures Contained(HandlePrePrepare(r, e), ms) && HandlePrePrepare(r, e).reorder == r.reorder
    ensures |HandlePrePrepare(r, e).log| == |r.log| + if e.prePrepare.viewNumber == r.viewNumber then 1 else 0
  {
  }

  lemma {:induction false} DrainStored(r: Replica, ms: seq<ToReplica>)
    requires Draining(r) && Stored(r, ms)
    ensures Stored(Drain(r), ms)
    decreases |r.reorder|
  {
    if CanDrain(r) {
      var k := NextEntry(r);
      var r1 := r.(reorder := r.reorder - {k});
      assert Contained(r1, ms);
      HandleContained(r1, r.reorder[k], ms);
      assert forall j: nat :: Holds(r, j) ==> Holds(DrainOne(r), j);
      DrainOneKeeps(r);
      DrainStored(DrainOne(r), ms);
    }
  }

  lemma NextStored(r: Replica, e: LogEntry, ms: seq<ToReplica>)
    requires LogInv(r) && Stored(r, ms) && Hashed(AsMessage(e)) && e.prePrepare.opNumber == NextEntry(r)
    ensures Stored(ReceivePrePrepare(r, e), ms + [AsMessage(e)])
  {
    var ms' := ms + [AsMessage(e)];
    assert AsMessage(e) in ms' && Contained(r, ms');
    HandleContained(r, e, ms');
    HandlePrePrepareKeeps(r, e);
    assert forall j: nat :: Holds(r, j) ==> Holds(HandlePrePrepare(r, e), j);
    DrainStored(HandlePrePrepare(r, e), ms');
  }

  lemma BufferStored(r: Replica, e: LogEntry, ms: seq<ToReplica>)
    requires LogInv(r) && Stored(r, ms) && e.prePrepare.opNumber != NextEntry(r)
    ensures Stored(ReceivePrePrepare(r, e), ms + [AsMessage(e)]) <==> !Displaces(r, AsMessage(e))
  {
    var r', m, k := ReceivePrePrepare(r, e), AsMessage(e), e.prePrepare.opNumber;
    assert m in ms + [m];
    if Displaces(r, m) {
      var earlier := AsMessage(r.reorder[k]);
      assert earlier in ms + [m] && IsCurrent(earlier) && !Holds(r', k);
    } else {
      assert forall j: nat :: Holds(r, j) ==> Holds(r', j);
    }
  }

  lemma OtherStored(r: Replica, r': Replica, m: ToReplica, ms: seq<ToReplica>)
    requires Stored(r, ms) && !m.ToPrePrepare? && r'.log == r.log && r'.reorder == r.reorder
    ensures Stored(r', ms + [m])
  {
  }

  /** A message makes the replica lose something it received exactly when it displaces it. */
  lemma StoredExactly(r: Replica, m: ToReplica, ms: seq<ToReplica>)
    requires LogInv(r) && Stored(r, ms) && Hashed(m) && !r.panicked
    ensures Stored(Poll(r, m), ms + [m]) <==> !Displaces(r, m)
  {
    if m.ToPrePrepare? {
      var e := LogEntry(m.prePrepare, m.requests);
      if m.prePrepare.opNumber == NextEntry(r) {
        NextStored(r, e, ms);
      } else {
        BufferStored(r, e, ms);
      }
    } else {
      PollLogFrame(r, m);
      OtherStored(r, Poll(r, m), m, ms);
    }
  }

  // ---------- A run ----------

  /** No message of `ms`, taken in order by `r`, displaces a buffered one. */
  ghost predicate Undisturbed(r: Replica, ms: seq<ToReplica>) {
    forall i :: 0 <= i < |ms| ==> !Displaces(PollAll(r, ms[..i]), ms[i])
  }

  /** After every prefix of `ms`, what was received is stored. */
  ghost predicate LosesNothing(r: Replica, ms: seq<ToReplica>) {
    forall i :: 0 <= i <= |ms| ==> Stored(PollAll(r, ms[..i]), ms[..i])
  }

  lemma UndisturbedNext(r: Replica, ms: seq<ToReplica>, m: ToReplica)
    ensures Undisturbed(r, ms + [m]) <==> Undisturbed(r, ms) && !Displaces(PollAll(r, ms), m)
  {
    var ms' := ms + [m];
    assert ms'[..|ms|] == ms && forall i :: 0 <= i < |ms| ==> ms'[..i] == ms[..i];
    if Undisturbed(r, ms') {
      assert !Displaces(PollAll(r, ms'[..|ms|]), ms'[|ms|]);
      forall i | 0 <= i < |ms| ensures !Displaces(PollAll(r, ms[..i]), ms[i]) {
        assert !Displaces(PollAll(r, ms'[..i]), ms'[i]);
      }
    }
  }

  lemma LosesNothingNext(r: Replica, ms: seq<ToReplica>, m: ToReplica)
    ensures LosesNothing(r, ms + [m]) <==> LosesNothing(r, ms) && Stored(PollAll(r, ms + [m]), ms + [m])
  {
    var ms' := ms + [m];
    assert ms'[..|ms'|] == ms' && forall i :: 0 <= i <= |ms| ==> ms'[..i] == ms[..i];
    if LosesNothing(r, ms') {
      assert Stored(PollAll(r, ms'[..|ms'|]), ms'[..|ms'|]);
      forall i | 0 <= i <= |ms| ensures Stored(PollAll(r, ms[..i]), ms[..i]) {
        assert Stored(PollAll(r, ms'[..i]), ms'[..i]);
      }
    }
  }

  lemma StoredNext(r: Replica, ms: seq<ToReplica>, m: ToReplica)
    requires LogInv(PollAll(r, ms)) && !PollAll(r, ms).panicked && Hashed(m) && Stored(PollAll(r, ms), ms)
    ensures Stored(PollAll(r, ms + [m]), ms + [m]) <==> !Displaces(PollAll(r, ms), m)
  {
    StoredExactly(PollAll(r, ms), m, ms);
    assert (ms + [m])[..|ms|] == ms && PollAll(r, ms + [m]) == Poll(PollAll(r, ms), m);
  }

  /** A new replica never loses a current pre-prepare in a run exactly when none is displaced. */
  lemma {:induction false} LosesNothingExactly(id: nat, config: Config, respond: seq<Call> -> Bytes, ms: seq<ToReplica>)
    requires id < config.n && (forall m :: m in ms ==> Hashed(m)) && !PollAll(New(id, config, respond), ms).panicked
    ensures LosesNothing(New(id, config, respond), ms) <==> Undisturbed(New(id, config, respond), ms)
    decreases |ms|
  {
    var r := New(id, config, respond);
    if ms == [] {
      assert ms[..0] == [] && Stored(r, []);
    } else {
      var init, m := ms[..|ms| - 1], ms[|ms| - 1];
      assert ms == init + [m];
      LosesNothingExactly(id, config, respond, init);
      ReachedKeeps(PollAll(r, init), init);
      UndisturbedNext(r, init, m);
      LosesNothingNext(r, init, m);
      if LosesNothing(r, init) {
        assert init[..|init|] == init && Stored(PollAll(r, init), init);
        StoredNext(r, init, m);
      }
    }
  }

  /** `log` is the longest run of consecutive op numbers in `ms`, with the contents there. */
  ghost predicate LongestRun(log: seq<LogEntry>, ms: seq<ToReplica>) {
    && (forall k :: 0 <= k < |log| ==>
          log[k].prePrepare.viewNumber == 0 && log[k].prePrepare.opNumber == k + 1 && AsMessage(log[k]) in ms)
    && !Received(ms, |log| + 1)
  }

  lemma StoredIsLongestRun(r: Replica, ms: seq<ToReplica>)
    requires LogInv(r) && Stored(r, ms)
    ensures LongestRun(r.log, ms)
  {
  }

  /** `r` is where `ms` takes a new replica, with nothing displaced on the way. */
  ghost predicate ReachedUndisturbed(r: Replica, ms: seq<ToReplica>) {
    && (forall m :: m in ms ==> Hashed(m)) && !r.panicked
    && exists id: nat, config: Config, respond: seq<Call> -> Bytes ::
         id < config.n && r == PollAll(New(id, config, respond), ms) && Undisturbed(New(id, config, respond), ms)
  }

  /** For every arrival order, repeats included and other messages interleaved, the log of a
      replica is the longest run of consecutive op numbers received for the current view, with the
      contents received, if no pre-prepare for another view displaces a buffered one. */
  lemma LogIsLongestRun(r: Replica, ms: seq<ToReplica>)
    requires ReachedUndisturbed(r, ms)
    ensures LongestRun(r.log, ms)
  {
    var id: nat, config: Config, respond: seq<Call> -> Bytes :|
      id < config.n && r == PollAll(New(id, config, respond), ms) && Undisturbed(New(id, config, respond), ms);
    LosesNothingExactly(id, config, respond, ms);
    assert ms[..|ms|] == ms && Stored(r, ms);
    ReachedKeeps(r, ms);
    StoredIsLongestRun(r, ms);
  }

  lemma TakeThree(r: Replica, m1: ToReplica, m2: ToReplica, m3: ToReplica)
    ensures PollAll(r, [m1, m2, m3]) == Poll(Poll(Poll(r, m1), m2), m3)
  {
    assert [m1, m2, m3][..2] == [m1, m2] && [m1, m2][..1] == [m1] && [m1][..0] == [];
    assert PollAll(r, [m1]) == Poll(r, m1);
    assert PollAll(r, [m1, m2]) == Poll(PollAll(r, [m1]), m2);
  }

  lemma DropsOther(r: Replica, other: LogEntry)
    requires r.viewNumber == 0 && |r.log| == 1 && r.reorder == map[2 := other] && other.prePrepare.viewNumber != 0
    ensures Drain(r).log == r.log && Drain(r).reorder == map[]
  {
    assert DrainOne(r) == r.(reorder := map[]);
    assert Drain(DrainOne(r)) == DrainOne(r);
  }

  /** A buffered entry for another view is dropped when its turn comes, and the log stops there. */
  lemma StopsAtOther(r: Replica, e: LogEntry, other: LogEntry)
    requires r.viewNumber == 0 && r.log == [] && r.reorder == map[2 := other] && other.prePrepare.viewNumber != 0
    requires e.prePrepare.opNumber == 1 && e.prePrepare.viewNumber == 0
    ensures ReceivePrePrepare(r, e).log == [e] && ReceivePrePrepare(r, e).reorder == map[]
  {
    DropsOther(HandlePrePrepare(r, e), other);
  }

  lemma BuffersLast(r: Replica, e: LogEntry, other: LogEntry)
    requires r.log == [] && r.reorder == map[] && e.prePrepare.opNumber == other.prePrepare.opNumber == 2
    ensures ReceivePrePrepare(ReceivePrePrepare(r, e), other) == r.(reorder := map[2 := other])
  {
    assert map[2 := e][2 := other] == map[2 := other];
  }

  lemma ThreeTaken(r: Replica, e1: LogEntry, e2: LogEntry, other: LogEntry)
    requires r.viewNumber == 0 && r.log == [] && r.reorder == map[] && !r.panicked
    requires e1.prePrepare.opNumber == 1 && e2.prePrepare.opNumber == other.prePrepare.opNumber == 2
    requires e1.prePrepare.viewNumber == 0 && other.prePrepare.viewNumber != 0
    ensures var r' := PollAll(r, [AsMessage(e2), AsMessage(other), AsMessage(e1)]);
            !r'.panicked && r'.log == [e1] && r'.reorder == map[]
  {
    var r2 := r.(reorder := map[2 := other]);
    TakeThree(r, AsMessage(e2), AsMessage(other), AsMessage(e1));
    BuffersLast(r, e2, other);
    assert Poll(Poll(r, AsMessage(e2)), AsMessage(other)) == r2;
    StopsAtOther(r2, e1, other);
    ReceivePrePrepareFrame(r2, e1);
  }

  /** With one displaced, a log may stop short of what was received. */
  lemma DisplacedStopsShort(id: nat, config: Config, respond: seq<Call> -> Bytes) returns (ms: seq<ToReplica>)
    requires id < config.n
    ensures (forall m :: m in ms ==> Hashed(m)) && Consistent(ms)
    ensures var r := PollAll(New(id, config, respond), ms);
            !r.panicked && |r.log| == 1 && Received(ms, 1) && Received(ms, 2) && r.reorder == map[]
  {
    var d := Sha256([]);
    var e1, e2 := LogEntry(PrePrepare(0, 1, d), []), LogEntry(PrePrepare(0, 2, d), []);
    var other := LogEntry(PrePrepare(1, 2, d), []);
    ms := [AsMessage(e2), AsMessage(other), AsMessage(e1)];
    ThreeTaken(New(id, config, respond), e1, e2, other);
    assert AsMessage(e1) in ms && AsMessage(e2) in ms;
  }

  // ---------- Two replicas ----------

  lemma EntriesReceived(log: seq<LogEntry>, ms: seq<ToReplica>, ms': seq<ToReplica>)
    requires LongestRun(log, ms) && forall m: ToReplica :: IsCurrent(m) && m in ms ==> m in ms'
    ensures forall k :: 1 <= k <= |log| ==> Received(ms', k)
  {
    forall k | 1 <= k <= |log| ensures Received(ms', k) {
      assert AsMessage(log[k - 1]) in ms';
    }
  }

  lemma LongestRunUnique(log: seq<LogEntry>, log': seq<LogEntry>, ms: seq<ToReplica>, ms': seq<ToReplica>)
    requires Consistent(ms) && Consistent(ms') && LongestRun(log, ms) && LongestRun(log', ms')
    requires forall m: ToReplica :: IsCurrent(m) ==> (m in ms <==> m in ms')
    ensures log == log'
  {
    EntriesReceived(log, ms, ms');
    EntriesReceived(log', ms', ms);
    assert |log| == |log'|;
    forall k | 0 <= k < |log| ensures log[k] == log'[k] {
      assert SameOpNumber(AsMessage(log[k]), AsMessage(log'[k]));
    }
  }

  /** Confluence: replicas that received the same current pre-prepares, in whatever orders and among
      whatever else, and had none displaced, have equal logs. */
  lemma Confluent(r: Replica, r': Replica, ms: seq<ToReplica>, ms': seq<ToReplica>)
    requires ReachedUndisturbed(r, ms) && ReachedUndisturbed(r', ms') && Consistent(ms) && Consistent(ms')
    requires forall m: ToReplica :: IsCurrent(m) ==> (m in ms <==> m in ms')
    ensures r.log == r'.log
  {
    LogIsLongestRun(r, ms);
    LogIsLongestRun(r', ms');
    LongestRunUnique(r.log, r'.log, ms, ms');
  }
}
