/**
 The consumer loop of one recommender, as it updates its own window offset, the high-water mark
 and the lock in Redis, while any other instances act between any two of its steps; proved to be
 one reader's part of a run of the step machine in `ReplayProtocol`.
 */
module ReplayLoop {
  import opened Common
  import opened ReplayProtocol

  // ------------------------------------------------------------ one reader's part of a run

  predicate Mine(a: Action, me: nat) {
    match a
    case Append => false
    case Expire => false
    case Fetch(r) => r == me
    case Acquire(r) => r == me
    case Refuse(r) => r == me
    case Process(r) => r == me
    case Fail(r) => r == me
    case Commit(r) => r == me
    case Release(r) => r == me
    case Advance(r) => r == me
    case Restart(r, _) => r == me
  }

  /** The steps of reader `me`. */
  function OwnPart(run: seq<Action>, me: nat): (r: seq<Action>) {
    if run == [] then []
    else OwnPart(Init(run), me) + (if Mine(Last(run), me) then [Last(run)] else [])
  }

  /** The ways a reader gets past a message. */
  datatype Way = ByApplying | ByReplaying | ByRefusal | ByFailure

  function TurnOf(way: Way, me: nat): seq<Action> {
    match way
    case ByApplying => [Fetch(me), Advance(me)]
    case ByReplaying => [Fetch(me), Acquire(me), Process(me), Commit(me), Release(me), Advance(me)]
    case ByRefusal => [Fetch(me), Refuse(me), Advance(me)]
    case ByFailure => [Fetch(me), Acquire(me), Fail(me), Advance(me)]
  }

  function Turns(ways: seq<Way>, me: nat): (r: seq<Action>) {
    if ways == [] then [] else Turns(Init(ways), me) + TurnOf(Last(ways), me)
  }

  lemma TurnIsComplete(own: seq<Action>, me: nat)
    ensures own + [Fetch(me)] + [Advance(me)] == own + TurnOf(ByApplying, me)
    ensures own + [Fetch(me)] + [Refuse(me)] + [Advance(me)] == own + TurnOf(ByRefusal, me)
    ensures own + [Fetch(me)] + [Acquire(me)] + [Fail(me)] + [Advance(me)] == own + TurnOf(ByFailure, me)
    ensures own + [Fetch(me)] + [Acquire(me)] + [Process(me)] + [Commit(me)] + [Release(me)] + [Advance(me)]
         == own + TurnOf(ByReplaying, me)
  {
  }

  lemma TurnsSnoc(ways: seq<Way>, way: Way, me: nat)
    ensures Turns(ways + [way], me) == Turns(ways, me) + TurnOf(way, me)
  {
    assert Init(ways + [way]) == ways;
  }

  /** The reader's part of the run is one turn for each of n messages, in these ways. */
  predicate PartIs(run: seq<Action>, me: nat, ways: seq<Way>, n: nat) {
    |ways| == n && OwnPart(run, me) == Turns(ways, me)
  }

  lemma PartGrows(run: seq<Action>, run': seq<Action>, me: nat, ways: seq<Way>, n: nat, way: Way)
    requires PartIs(run, me, ways, n) && OwnPart(run', me) == OwnPart(run, me) + TurnOf(way, me)
    ensures PartIs(run', me, ways + [way], n + 1)
  {
    TurnsSnoc(ways, way, me);
  }

  /** The ways of messages from `start` on: none but the last one raised, and that one as told. */
  predicate RaisedLast(ways: seq<Way>, start: nat, raises: set<nat>, raised: bool) {
    && (raised ==> ways != [] && start + |ways| - 1 in raises && (Last(ways) == ByFailure || Last(ways) == ByApplying))
    && forall i :: 0 <= i < |ways| - (if raised then 1 else 0) ==>
         ways[i] == ByRefusal || (ways[i] != ByFailure && start + i !in raises)
  }

  lemma OneMoreWay(ways: seq<Way>, start: nat, raises: set<nat>, way: Way, raised: bool)
    requires RaisedLast(ways, start, raises, false)
    requires raised <==> start + |ways| in raises && way != ByRefusal
    requires raised ==> way == ByFailure || way == ByApplying
    requires way == ByFailure ==> raised
    ensures RaisedLast(ways + [way], start, raises, raised)
  {
  }

  lemma OwnSnoc(run: seq<Action>, a: Action, me: nat)
    ensures OwnPart(run + [a], me) == OwnPart(run, me) + (if Mine(a, me) then [a] else [])
  {
    assert Init(run + [a]) == run;
  }

  predicate OthersOnly(actions: seq<Action>, me: nat) {
    forall a :: a in actions ==> !Mine(a, me)
  }

  lemma {:induction false} OthersAddNothing(run: seq<Action>, more: seq<Action>, me: nat)
    requires OthersOnly(more, me)
    ensures OwnPart(run + more, me) == OwnPart(run, me)
  {
    if more == [] {
      assert run + more == run;
    } else {
      var init, last := Init(more), Last(more);
      assert more == init + [last] && !Mine(last, me);
      OthersAddNothing(run, init, me);
      OwnSnoc(run + init, last, me);
      Associate(run, init, [last]);
    }
  }

  lemma OtherStepKeeps(s: State, a: Action, me: nat)
    requires me < |s.readers| && Enabled(s, a) && !Mine(a, me)
    ensures var t := Step(s, a); |t.readers| == |s.readers| && t.readers[me] == s.readers[me] && t.logEnd >= s.logEnd
  {
  }

  /** Whatever the others do, they leave this reader where it is, and the log no shorter. */
  lemma {:induction false} OthersKeep(s: State, actions: seq<Action>, me: nat)
    requires me < |s.readers| && OthersOnly(actions, me) && Exec(s, actions).Some?
    ensures var t := Exec(s, actions).value; |t.readers| == |s.readers| && t.readers[me] == s.readers[me] && t.logEnd >= s.logEnd
  {
    if actions != [] {
      var n := |actions| - 1;
      OthersKeep(s, actions[..n], me);
      OtherStepKeeps(Exec(s, actions[..n]).value, actions[n], me);
    }
  }

  /** What the others try, while this reader is at a given message in a given phase. */
  type Others = (nat, Phase) -> seq<Action>

  /** Of the steps that are tried, those of other readers that can be taken when their turn comes. */
  function Performed(s: State, tried: seq<Action>, me: nat): (r: seq<Action>)
    decreases |tried|
  {
    if tried == [] then []
    else if Mine(tried[0], me) || !Enabled(s, tried[0]) then Performed(s, tried[1..], me)
    else [tried[0]] + Performed(Step(s, tried[0]), tried[1..], me)
  }

  /** They are steps of others, and make a run. */
  lemma {:induction false} PerformedRuns(s: State, tried: seq<Action>, me: nat)
    ensures OthersOnly(Performed(s, tried, me), me) && Exec(s, Performed(s, tried, me)).Some?
    decreases |tried|
  {
    if tried != [] {
      var a := tried[0];
      if Mine(a, me) || !Enabled(s, a) {
        PerformedRuns(s, tried[1..], me);
      } else {
        PerformedRuns(Step(s, a), tried[1..], me);
        ExecOne(s, a);
        ExecConcat(s, [a], Performed(Step(s, a), tried[1..], me));
      }
    }
  }

  lemma ExecFirst(s: State, actions: seq<Action>)
    requires actions != [] && Enabled(s, actions[0])
    ensures Exec(s, actions) == Exec(Step(s, actions[0]), actions[1..])
  {
    ExecOne(s, actions[0]);
    ExecConcat(s, [actions[0]], actions[1..]);
    assert [actions[0]] + actions[1..] == actions;
  }

  lemma {:induction false} FirstIsEnabled(s: State, actions: seq<Action>)
    requires actions != [] && Exec(s, actions).Some?
    ensures Enabled(s, actions[0])
  {
    if |actions| > 1 { FirstIsEnabled(s, Init(actions)); }
  }

  /** Any run of the others' steps is performed in full, if they try it. */
  lemma {:induction false} EveryRunCanBePerformed(s: State, run: seq<Action>, me: nat)
    requires OthersOnly(run, me) && Exec(s, run).Some?
    ensures Performed(s, run, me) == run
    decreases |run|
  {
    if run != [] {
      FirstIsEnabled(s, run);
      ExecFirst(s, run);
      EveryRunCanBePerformed(Step(s, run[0]), run[1..], me);
    }
  }

  // ------------------------------------------------------------ the loop

  /** The run leads from s0 to t. */
  predicate Reached(s0: State, run: seq<Action>, t: State) {
    Exec(s0, run) == Some(t)
  }

  class Redis {
    var replayTillOffset: int
    var lock: Option<nat>

    constructor (offset: int, lock: Option<nat>)
      ensures replayTillOffset == offset && this.lock == lock
    {
      replayTillOffset := offset;
      this.lock := lock;
    }
  }

  class EnvConsumer {
    const id: nat
    const redis: Redis
    var windowOffset: nat  // one past the last message handled without an exception
    var position: nat      // of the Kafka consumer

    constructor (id: nat, redis: Redis, start: nat)
      ensures this.id == id && this.redis == redis && windowOffset == start && position == start
    {
      this.id := id;
      this.redis := redis;
      windowOffset := start;
      position := start;
    }

    /** Reader `me` of the state is this consumer in the given phase, and Redis is as the state says. */
    predicate Shows(s: State, me: nat, phase: Phase)
      reads this, redis
    {
      && me < |s.readers| && s.readers[me] == Reader(id, position, phase)
      && redis.replayTillOffset == s.highWater && redis.lock == s.lock
    }

    /** The others act, and Redis shows what they did. */
    method Interfere(me: nat, s: State, ghost s0: State, ghost run: seq<Action>, others: Others, phase: Phase)
      returns (t: State, ghost run': seq<Action>)
      requires Shows(s, me, phase) && Reached(s0, run, s)
      modifies redis
      ensures Shows(t, me, phase) && Reached(s0, run', t) && t.logEnd >= s.logEnd
      ensures OwnPart(run', me) == OwnPart(run, me)
    {
      var more := Performed(s, others(position, phase), me);
      PerformedRuns(s, others(position, phase), me);
      t := Exec(s, more).value;
      run' := run + more;
      OthersKeep(s, more, me);
      ExecConcat(s0, run, more);
      OthersAddNothing(run, more, me);
      redis.replayTillOffset, redis.lock := t.highWater, t.lock;
    }

    /** From the test of the mark to the end of the locked part, or without it. */
    method Handle(me: nat, s: State, ghost s0: State, ghost run: seq<Action>, others: Others, granted: set<nat>, raises: set<nat>)
      returns (t: State, ghost run': seq<Action>, ghost way: Way, raised: bool)
      requires Shows(s, me, Idle) && Reached(s0, run, s) && position < s.logEnd
      modifies redis
      ensures Shows(t, me, Handled) && Reached(s0, run', t) && t.logEnd >= s.logEnd
      ensures OwnPart(run', me) + [Advance(me)] == OwnPart(run, me) + TurnOf(way, me)
      ensures raised <==> position in raises && way != ByRefusal
      ensures raised ==> way == ByFailure || way == ByApplying
      ensures way == ByFailure ==> raised
      ensures way == ByReplaying || way == ByFailure ==> position in granted
    {
      TurnIsComplete(OwnPart(run, me), me);
      t, run' := Interfere(me, s, s0, run, others, Idle);
      run' := Stepped(s0, run', t, Fetch(me), me);
      if position <= redis.replayTillOffset {
        t := Step(t, Fetch(me));
        way := ByApplying;
        raised := position in raises;
        return;
      }
      t := Step(t, Fetch(me));
      t, run' := Interfere(me, t, s0, run', others, Waiting);
      if redis.lock.Some? || position !in granted {
        run' := Stepped(s0, run', t, Refuse(me), me);
        t := Step(t, Refuse(me));
        way := ByRefusal;
        raised := false;
        return;
      }
      raised := position in raises;
      if raised {
        t, run' := FailUnderLock(me, t, s0, run', others);
        way := ByFailure;
      } else {
        t, run' := ReplayUnderLock(me, t, s0, run', others);
        way := ByReplaying;
      }
    }

    /** Take the lock. */
    method TakeLock(me: nat, s: State, ghost s0: State, ghost run: seq<Action>, others: Others)
      returns (t: State, ghost run': seq<Action>)
      requires Shows(s, me, Waiting) && s.lock.None? && Reached(s0, run, s)
      modifies redis
      ensures Shows(t, me, Holding) && Reached(s0, run', t) && t.logEnd >= s.logEnd
      ensures OwnPart(run', me) == OwnPart(run, me) + [Acquire(me)]
    {
      run' := Stepped(s0, run, s, Acquire(me), me);
      t := Step(s, Acquire(me));
      redis.lock := Some(id);
      t, run' := Interfere(me, t, s0, run', others, Holding);
    }

    /** Take the lock; processing raises, and the lock is given back on the way out. */
    method FailUnderLock(me: nat, s: State, ghost s0: State, ghost run: seq<Action>, others: Others)
      returns (t: State, ghost run': seq<Action>)
      requires Shows(s, me, Waiting) && s.lock.None? && Reached(s0, run, s)
      modifies redis
      ensures Shows(t, me, Handled) && Reached(s0, run', t) && t.logEnd >= s.logEnd
      ensures OwnPart(run', me) == OwnPart(run, me) + [Acquire(me)] + [Fail(me)]
      ensures redis.lock != Some(id)
    {
      t, run' := TakeLock(me, s, s0, run, others);
      run' := Stepped(s0, run', t, Fail(me), me);
      t := Step(t, Fail(me));
      if redis.lock == Some(id) { redis.lock := None; }
    }

    /** Take the lock, process, commit the offset, give the lock back. */
    method ReplayUnderLock(me: nat, s: State, ghost s0: State, ghost run: seq<Action>, others: Others)
      returns (t: State, ghost run': seq<Action>)
      requires Shows(s, me, Waiting) && s.lock.None? && Reached(s0, run, s)
      modifies redis
      ensures Shows(t, me, Handled) && Reached(s0, run', t) && t.logEnd >= s.logEnd
      ensures OwnPart(run', me) == OwnPart(run, me) + [Acquire(me)] + [Process(me)] + [Commit(me)] + [Release(me)]
      ensures redis.lock != Some(id)
    {
      t, run' := TakeLock(me, s, s0, run, others);
      run' := Stepped(s0, run', t, Process(me), me);
      t := Step(t, Process(me));
      t, run' := Interfere(me, t, s0, run', others, Processed);
      run' := Stepped(s0, run', t, Commit(me), me);
      t := Step(t, Commit(me));
      redis.replayTillOffset := position;
      t, run' := Interfere(me, t, s0, run', others, Committed);
      run' := Stepped(s0, run', t, Release(me), me);
      t := Step(t, Release(me));
      if redis.lock == Some(id) { redis.lock := None; }
    }

    /** One message, and on to the next; the consumer has moved on even if processing raised. */
    method OneMessage(me: nat, s: State, ghost s0: State, ghost run: seq<Action>, others: Others, granted: set<nat>, raises: set<nat>)
      returns (t: State, ghost run': seq<Action>, ghost way: Way, raised: bool)
      requires Shows(s, me, Idle) && Reached(s0, run, s) && position < s.logEnd
      modifies this`position, redis
      ensures position == old(position) + 1
      ensures Shows(t, me, Idle) && Reached(s0, run', t) && t.logEnd >= s.logEnd
      ensures OwnPart(run', me) == OwnPart(run, me) + TurnOf(way, me)
      ensures raised <==> old(position) in raises && way != ByRefusal
      ensures raised ==> way == ByFailure || way == ByApplying
      ensures way == ByFailure ==> raised
    {
      t, run', way, raised := Handle(me, s, s0, run, others, granted, raises);
      t, run' := Interfere(me, t, s0, run', others, Handled);
      run' := Stepped(s0, run', t, Advance(me), me);
      t := Step(t, Advance(me));
      position := position + 1;
    }

    /**
     Handles the messages from the consumer's position up to `end`, while others act in between.
     `granted` are the offsets for which a free lock is obtained, `raises` those on which
     processing raises, which ends the pass behind it. What happens is a run of the machine,
     and this reader's part of it is one turn for each message.
     */
    method ConsumeEnvMessages(me: nat, s0: State, others: Others, granted: set<nat>, raises: set<nat>, end: nat)
      returns (t: State, ghost run: seq<Action>, ghost ways: seq<Way>, raised: bool)
      requires Shows(s0, me, Idle) && position <= end <= s0.logEnd
      modifies this, redis
      ensures Shows(t, me, Idle) && Reached(s0, run, t)
      ensures old(position) <= position <= end && (!raised ==> position == end)
      ensures PartIs(run, me, ways, position - old(position))
      ensures RaisedLast(ways, old(position), raises, raised)
      ensures windowOffset ==
        if !raised && position > old(position) then position
        else if raised && position - 1 > old(position) then position - 1
        else old(windowOffset)
    {
      t, run, ways, raised := s0, [], [], false;
      ghost var start := position;
      while position < end && !raised
        invariant start <= position <= end <= t.logEnd && Shows(t, me, Idle)
        invariant Reached(s0, run, t)
        invariant PartIs(run, me, ways, position - start)
        invariant RaisedLast(ways, start, raises, raised)
        invariant !raised ==> windowOffset == if position > start then position else old(windowOffset)
        invariant raised ==> position > start && windowOffset == if position - 1 > start then position - 1 else old(windowOffset)
        decreases end - position
      {
        ghost var before, way := run, ByApplying;
        t, run, way, raised := OneMessage(me, t, s0, run, others, granted, raises);
        PartGrows(before, run, me, ways, position - 1 - start, way);
        OneMoreWay(ways, start, raises, way, raised);
        ways := ways + [way];
        if !raised { windowOffset := position; }
      }
    }
  }

  /** The run with one more step of this reader. */
  lemma Stepped(s0: State, run: seq<Action>, s: State, a: Action, me: nat) returns (run': seq<Action>)
    requires Reached(s0, run, s) && Enabled(s, a) && Mine(a, me)
    ensures Reached(s0, run', Step(s, a)) && OwnPart(run', me) == OwnPart(run, me) + [a]
  {
    run' := run + [a];
    Extend(s0, run, a);
    OwnSnoc(run, a, me);
  }
}
