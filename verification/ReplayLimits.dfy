/**
 How sharp the results on the replay protocol are: the bound on replays is reached, and the mark
 can fall, replays can overlap and messages can be lost exactly where the protocol leaves room.
 */
module ReplayLimits {
  import opened Common
  import opened ReplayProtocol
  import opened ReplaySolo

  /** One reader's turn with a message above the mark, when the lock is granted. */
  function Turn(r: nat): seq<Action> {
    [Acquire(r), Process(r), Commit(r), Release(r)]
  }

  lemma TurnRuns(s: State, r: nat)
    requires InPhase(s, r, Waiting) && s.lock.None?
    ensures var p := s.readers[r];
            Exec(s, Turn(r)) == Some(s.(
              readers := s.readers[r := p.(phase := Handled)],
              highWater := p.cursor,
              trace := s.trace + [Replayed(p.id, p.cursor)]))
  {
    var s1 := Step(s, Acquire(r));
    var s2 := Step(s1, Process(r));
    var s3 := Step(s2, Commit(r));
    ExecOne(s, Acquire(r));
    Extend(s, [Acquire(r)], Process(r));
    assert [Acquire(r)] + [Process(r)] == [Acquire(r), Process(r)];
    Extend(s, [Acquire(r), Process(r)], Commit(r));
    assert [Acquire(r), Process(r)] + [Commit(r)] == [Acquire(r), Process(r), Commit(r)];
    Extend(s, [Acquire(r), Process(r), Commit(r)], Release(r));
    assert [Acquire(r), Process(r), Commit(r)] + [Release(r)] == Turn(r);
    assert s.readers[r := s.readers[r].(phase := Handled)] == Step(s3, Release(r)).readers;
  }

  /** A turn in which processing raises gives the lock back and commits nothing. */
  lemma FailedTurnRuns(s: State, r: nat)
    requires InPhase(s, r, Waiting) && s.lock.None?
    ensures var p := s.readers[r];
            Exec(s, [Acquire(r), Fail(r)]) == Some(s.(
              readers := s.readers[r := p.(phase := Handled)],
              trace := s.trace + [Failed(p.id, p.cursor)]))
  {
    var s1 := Step(s, Acquire(r));
    ExecOne(s, Acquire(r));
    Extend(s, [Acquire(r)], Fail(r));
    assert [Acquire(r)] + [Fail(r)] == [Acquire(r), Fail(r)];
    assert s.readers[r := s.readers[r].(phase := Handled)] == Step(s1, Fail(r)).readers;
  }

  /** Nobody restarts, is refused the lock or fails, and the lock never expires. */
  predicate Undisturbed(actions: seq<Action>) {
    forall a :: a in actions ==> !a.Restart? && !a.Refuse? && !a.Fail? && !a.Expire?
  }

  function FetchAll(m: nat): (actions: seq<Action>) {
    if m == 0 then [] else FetchAll(m - 1) + [Fetch(m - 1)]
  }

  function TurnAll(m: nat): (actions: seq<Action>) {
    if m == 0 then [] else TurnAll(m - 1) + Turn(m - 1)
  }

  /** All recommenders stand right above the mark, and the log has a message there. */
  predicate AllAtTheMark(s: State) {
    && 0 <= s.highWater + 1 < s.logEnd
    && forall r :: 0 <= r < |s.readers| ==> s.readers[r].cursor == s.highWater + 1
  }

  lemma {:induction false} FetchAllRuns(s0: State, base: int, m: nat)
    requires Initial(s0, base) && AllAtTheMark(s0) && m <= |s0.readers|
    ensures Exec(s0, FetchAll(m)).Some?
    ensures var s := Exec(s0, FetchAll(m)).value;
            && s == s0.(readers := s.readers)
            && |s.readers| == |s0.readers|
            && forall r :: 0 <= r < |s.readers| ==> s.readers[r] == s0.readers[r].(phase := if r < m then Waiting else Idle)
  {
    if m > 0 {
      FetchAllRuns(s0, base, m - 1);
      Extend(s0, FetchAll(m - 1), Fetch(m - 1));
    }
  }

  /** The first m readers have replayed k, the others still wait. */
  ghost predicate TurnsTaken(s: State, k: nat, m: nat, t: State) {
    && t.lock == None && |t.readers| == |s.readers| && ReplayCount(t.trace, k) == m
    && forall r :: 0 <= r < |t.readers| ==> t.readers[r] == (if r < m then s.readers[r].(phase := Handled) else s.readers[r])
  }

  lemma OneMoreTurn(s: State, k: nat, m: nat, mid: State)
    requires TurnsTaken(s, k, m, mid) && m < |s.readers| && s.readers[m].cursor == k && s.readers[m].phase == Waiting
    ensures Exec(mid, Turn(m)).Some? && TurnsTaken(s, k, m + 1, Exec(mid, Turn(m)).value)
  {
    var p := mid.readers[m];
    TurnRuns(mid, m);
    CountAfter(mid.trace, Replayed(p.id, k), k);
  }

  lemma {:induction false} TurnAllRuns(s: State, k: nat, m: nat)
    requires s.lock == None && s.trace == [] && m <= |s.readers|
    requires forall r :: 0 <= r < |s.readers| ==> s.readers[r].cursor == k && s.readers[r].phase == Waiting
    ensures Exec(s, TurnAll(m)).Some? && TurnsTaken(s, k, m, Exec(s, TurnAll(m)).value)
  {
    if m > 0 {
      TurnAllRuns(s, k, m - 1);
      OneMoreTurn(s, k, m - 1, Exec(s, TurnAll(m - 1)).value);
      ExecConcat(s, TurnAll(m - 1), Turn(m - 1));
    }
  }

  lemma {:induction false} PlainActions(m: nat)
    ensures Undisturbed(FetchAll(m)) && Undisturbed(TurnAll(m))
  {
    if m > 0 {
      PlainActions(m - 1);
    }
  }

  /** The bound is reached: N recommenders can replay one message N times with every lock granted in time. */
  lemma ReplayBoundIsReached(s0: State, base: int)
    requires Initial(s0, base) && AllAtTheMark(s0)
    ensures exists actions: seq<Action> ::
              && Exec(s0, actions).Some?
              && Undisturbed(actions)
              && ReplayCount(Exec(s0, actions).value.trace, base + 1) == |s0.readers|
  {
    var n := |s0.readers|;
    FetchAllRuns(s0, base, n);
    TurnAllRuns(Exec(s0, FetchAll(n)).value, base + 1, n);
    ExecConcat(s0, FetchAll(n), TurnAll(n));
    PlainActions(n);
    var actions := FetchAll(n) + TurnAll(n);
    assert ReplayCount(Exec(s0, actions).value.trace, base + 1) == n;
  }

  /** Reader 0 replays the message at the mark and the next one while reader 1 still waits for the lock. */
  lemma Overtake(s: State, k: nat) returns (actions: seq<Action>)
    requires s.lock == None && k + 1 < s.logEnd
    requires |s.readers| >= 2 && s.readers[0] == Reader(0, k, Waiting) && s.readers[1] == Reader(1, k, Waiting)
    ensures && Undisturbed(actions)
            && Exec(s, actions) == Some(s.(
                 readers := s.readers[0 := Reader(0, k + 1, Handled)],
                 highWater := k + 1,
                 trace := s.trace + [Replayed(0, k)] + [Replayed(0, k + 1)]))
  {
    TurnRuns(s, 0);
    Extend(s, Turn(0), Advance(0));
    var a1 := Turn(0) + [Advance(0)];
    Extend(s, a1, Fetch(0));
    var a2 := a1 + [Fetch(0)];
    var s2 := Exec(s, a2).value;
    assert s2.readers[0] == Reader(0, k + 1, Waiting);
    TurnRuns(s2, 0);
    ExecConcat(s, a2, Turn(0));
    assert s2.readers[0 := Reader(0, k + 1, Handled)] == s.readers[0 := Reader(0, k + 1, Handled)];
    actions := a2 + Turn(0);
  }

  /** A waiting reader gets the lock and processes its message. */
  lemma AcquireAndProcess(s: State, r: nat) returns (actions: seq<Action>)
    requires InPhase(s, r, Waiting) && s.lock == None
    ensures Undisturbed(actions) && Exec(s, actions).Some?
    ensures var t := Exec(s, actions).value;
            t.highWater == s.highWater && InPhase(t, r, Processed) && t.readers[r].cursor == s.readers[r].cursor
  {
    ExecOne(s, Acquire(r));
    Extend(s, [Acquire(r)], Process(r));
    actions := [Acquire(r)] + [Process(r)];
  }

  /** After the actions, `a` lowers the mark; nothing was refused and no lock expired. */
  predicate MovesMarkBack(s0: State, actions: seq<Action>, a: Action) {
    && Undisturbed(actions + [a])
    && match Exec(s0, actions)
       case None => false
       case Some(s) => Enabled(s, a) && Step(s, a).highWater < s.highWater
  }

  /** Reader 1 processes k after reader 0 committed k + 1. */
  lemma StaleProcess(s: State, k: nat) returns (actions: seq<Action>)
    requires s.lock == None && k + 1 < s.logEnd
    requires |s.readers| >= 2 && s.readers[0] == Reader(0, k, Waiting) && s.readers[1] == Reader(1, k, Waiting)
    ensures Undisturbed(actions) && Exec(s, actions).Some?
    ensures var t := Exec(s, actions).value;
            t.highWater == k + 1 && InPhase(t, 1, Processed) && t.readers[1].cursor == k
  {
    var a1 := Overtake(s, k);
    var a2 := AcquireAndProcess(Exec(s, a1).value, 1);
    ExecConcat(s, a1, a2);
    actions := a1 + a2;
  }

  lemma MarkMovesBack(s0: State, base: int) returns (actions: seq<Action>, a: Action)
    requires Initial(s0, base) && AllAtTheMark(s0) && |s0.readers| >= 2 && base + 2 < s0.logEnd
    ensures MovesMarkBack(s0, actions, a)
  {
    FetchAllRuns(s0, base, 2);
    PlainActions(2);
    var s1 := Exec(s0, FetchAll(2)).value;
    var more := StaleProcess(s1, base + 1);
    ExecConcat(s0, FetchAll(2), more);
    actions, a := FetchAll(2) + more, Commit(1);
  }

  /**
   From recommenders that stand at the mark, with two messages to read: a run without any
   refusal, expiry or restart can move the committed mark backwards if and only if there are at
   least two of them. A reader that passed the test early commits its older offset after
   somebody else committed a newer one.
   */
  lemma MarkCanMoveBackIff(s0: State, base: int)
    requires Initial(s0, base) && AllAtTheMark(s0) && base + 2 < s0.logEnd
    ensures (exists actions: seq<Action>, a: Action :: MovesMarkBack(s0, actions, a)) <==> |s0.readers| >= 2
  {
    if |s0.readers| >= 2 {
      var actions, a := MarkMovesBack(s0, base);
    } else {
      forall actions: seq<Action>, a: Action ensures !MovesMarkBack(s0, actions, a) {
        if MovesMarkBack(s0, actions, a) {
          LivesOfRun(s0, actions);
          if |s0.readers| == 1 { LoneMarkNeverFalls(s0, actions, a, base); }
        }
      }
    }
  }

  /** A refused lock loses its message for a lone recommender: the cursor moves on, the mark stays, nothing was replayed. */
  lemma RefusalLosesTheMessage(s0: State, base: int) returns (actions: seq<Action>)
    requires Initial(s0, base) && AllAtTheMark(s0) && |s0.readers| == 1
    ensures Exec(s0, actions).Some?
    ensures var s := Exec(s0, actions).value;
      && s.readers == [Reader(0, base + 2, Idle)] && s.highWater == base
      && RefusedAt(s.trace, base + 1) && !ReplayedAt(s.trace, base + 1)
  {
    ExecOne(s0, Fetch(0));
    Extend(s0, [Fetch(0)], Refuse(0));
    var a2 := [Fetch(0)] + [Refuse(0)];
    Extend(s0, a2, Advance(0));
    actions := a2 + [Advance(0)];
    var s := Exec(s0, actions).value;
    assert s.readers == [Reader(0, base + 2, Idle)];
    assert s.trace == [Refused(0, base + 1)];
    assert Refused(0, base + 1) in s.trace;
  }

  ghost predicate Overlap(s: State) {
    exists q, r :: 0 <= q < r < |s.readers| && Critical(s.readers[q]) && Critical(s.readers[r])
  }

  lemma {:induction false} ExpiredMeansExpiry(s0: State, actions: seq<Action>, base: int, id: nat)
    requires Initial(s0, base) && Exec(s0, actions).Some? && Expired(id) in Exec(s0, actions).value.trace
    ensures Expire in actions
  {
    if actions != [] {
      var n := |actions| - 1;
      if Expired(id) in Exec(s0, actions[..n]).value.trace { ExpiredMeansExpiry(s0, actions[..n], base, id); }
    }
  }

  predicate OnlyExpires(actions: seq<Action>) {
    forall a :: a in actions ==> !a.Restart? && !a.Refuse? && !a.Fail?
  }

  /** The first reader's lock expires, and the second one takes it. */
  lemma TakeOver(s: State) returns (actions: seq<Action>)
    requires |s.readers| >= 2 && InPhase(s, 0, Waiting) && InPhase(s, 1, Waiting) && s.lock.None?
    ensures OnlyExpires(actions) && Exec(s, actions).Some?
    ensures var t := Exec(s, actions).value; |t.readers| >= 2 && InPhase(t, 0, Holding) && InPhase(t, 1, Holding)
  {
    var s1 := Step(s, Acquire(0));
    var s2 := Step(s1, Expire);
    ExecOne(s, Acquire(0));
    Extend(s, [Acquire(0)], Expire);
    Extend(s, [Acquire(0)] + [Expire], Acquire(1));
    actions := [Acquire(0)] + [Expire] + [Acquire(1)];
    assert Exec(s, actions) == Some(Step(s2, Acquire(1)));
  }

  lemma BothWait(s0: State, base: int) returns (s: State)
    requires Initial(s0, base) && AllAtTheMark(s0) && |s0.readers| >= 2
    ensures Exec(s0, FetchAll(2)) == Some(s) && OnlyExpires(FetchAll(2))
    ensures |s.readers| >= 2 && InPhase(s, 0, Waiting) && InPhase(s, 1, Waiting) && s.lock.None?
  {
    FetchAllRuns(s0, base, 2);
    PlainActions(2);
    s := Exec(s0, FetchAll(2)).value;
  }

  lemma TwoHolders(s0: State, base: int) returns (actions: seq<Action>)
    requires Initial(s0, base) && AllAtTheMark(s0) && |s0.readers| >= 2
    ensures OnlyExpires(actions) && Exec(s0, actions).Some? && Overlap(Exec(s0, actions).value)
  {
    var first := FetchAll(2);
    var s := BothWait(s0, base);
    var more := TakeOver(s);
    ExecConcat(s0, first, more);
    actions := first + more;
    var t := Exec(s, more).value;
    assert Critical(t.readers[0]) && Critical(t.readers[1]);
  }

  /**
   Replays overlap only in runs in which the lock expires; and with at least two recommenders at
   the mark an expiry, without any refusal or restart, is enough.
   */
  lemma OverlapNeedsAnExpiry(s0: State, base: int)
    requires Initial(s0, base)
    ensures forall actions: seq<Action> :: Exec(s0, actions).Some? && Overlap(Exec(s0, actions).value) ==> Expire in actions
    ensures AllAtTheMark(s0) && |s0.readers| >= 2 ==>
      exists actions: seq<Action> :: OnlyExpires(actions) && Exec(s0, actions).Some? && Overlap(Exec(s0, actions).value)
  {
    forall actions: seq<Action> | Exec(s0, actions).Some? && Overlap(Exec(s0, actions).value)
      ensures Expire in actions
    {
      var s := Exec(s0, actions).value;
      var q, r :| 0 <= q < r < |s.readers| && Critical(s.readers[q]) && Critical(s.readers[r]);
      ReplaysExcludeEachOther(s0, actions, base, q, r);
      ExpiredMeansExpiry(s0, actions, base, if Expired(s.readers[q].id) in s.trace then s.readers[q].id else s.readers[r].id);
    }
    if AllAtTheMark(s0) && |s0.readers| >= 2 {
      var actions := TwoHolders(s0, base);
    }
  }
}
