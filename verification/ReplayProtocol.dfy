/**
 Several planner instances with the recommender role read one ordered message log. Each of
 them handles a message with mutation ("replays" it) only when its offset is above a shared
 high-water mark, under a shared lock that is taken after the test; the mark is then set to
 the offset and the lock released. A refused lock still moves the reader on.

 The test, the lock, the processing, the commit, the release and the move of the cursor are
 separate steps here, any two instances may interleave them, the lock may expire under its
 holder, and an instance may die anywhere and come back as a new one. A life may begin at any
 offset; where that is beyond the mark, it jumps over what lies between. Processing under the
 lock may raise: the lock is freed, nothing is committed, and the reader moves on.
 */
module ReplayProtocol {
  import opened Common

  /** Where an instance stands with the message at its cursor. */
  datatype Phase = Idle | Waiting | Holding | Processed | Committed | Handled

  /** One life of a recommender: every restart gives it a new `id`. */
  datatype Reader = Reader(id: nat, cursor: nat, phase: Phase)

  datatype Event =
    | Replayed(id: nat, offset: nat)
    | Applied(id: nat, offset: nat)
    | Refused(id: nat, offset: nat)
    | Failed(id: nat, offset: nat)  // processing raised
    | Expired(id: nat)
    | LostCommit(offset: nat)  // its reader died after processing it and before the commit

  /** Where a life began, and the mark at that time. */
  datatype Start = Start(offset: nat, mark: int)

  datatype State = State(
    highWater: int,
    lock: Option<nat>,
    readers: seq<Reader>,
    nextId: nat,
    logEnd: nat,
    starts: seq<Start>,
    trace: seq<Event>)

  datatype Action =
    | Append
    | Expire
    | Fetch(r: nat)
    | Acquire(r: nat)
    | Refuse(r: nat)
    | Process(r: nat)
    | Fail(r: nat)
    | Commit(r: nat)
    | Release(r: nat)
    | Advance(r: nat)
    | Restart(r: nat, offset: nat)

  predicate InPhase(s: State, r: nat, phase: Phase) {
    r < |s.readers| && s.readers[r].phase == phase
  }

  predicate Enabled(s: State, a: Action) {
    match a
    case Append => true
    case Expire => s.lock.Some?
    case Fetch(r) => InPhase(s, r, Idle) && s.readers[r].cursor < s.logEnd
    case Acquire(r) => InPhase(s, r, Waiting) && s.lock.None?
    case Refuse(r) => InPhase(s, r, Waiting)
    case Process(r) => InPhase(s, r, Holding)
    case Fail(r) => InPhase(s, r, Holding)
    case Commit(r) => InPhase(s, r, Processed)
    case Release(r) => InPhase(s, r, Committed)
    case Advance(r) => InPhase(s, r, Handled)
    case Restart(r, _) => r < |s.readers|
  }

  function Move(s: State, r: nat, phase: Phase): State
    requires r < |s.readers|
  {
    s.(readers := s.readers[r := s.readers[r].(phase := phase)])
  }

  function Record(s: State, e: Event): State {
    s.(trace := s.trace + [e])
  }

  function Step(s: State, a: Action): State
    requires Enabled(s, a)
  {
    match a
    case Append => s.(logEnd := s.logEnd + 1)
    case Expire => Record(s.(lock := None), Expired(s.lock.value))
    case Fetch(r) =>
      if s.readers[r].cursor > s.highWater then Move(s, r, Waiting)
      else Record(Move(s, r, Handled), Applied(s.readers[r].id, s.readers[r].cursor))
    case Acquire(r) => Move(s, r, Holding).(lock := Some(s.readers[r].id))
    case Refuse(r) => Record(Move(s, r, Handled), Refused(s.readers[r].id, s.readers[r].cursor))
    case Process(r) => Record(Move(s, r, Processed), Replayed(s.readers[r].id, s.readers[r].cursor))
    case Commit(r) => Move(s, r, Committed).(highWater := s.readers[r].cursor)
    case Fail(r) =>
      Record(Move(s, r, Handled).(lock := if s.lock == Some(s.readers[r].id) then None else s.lock),
             Failed(s.readers[r].id, s.readers[r].cursor))
    case Release(r) =>
      // Releasing a lock that expired and belongs to somebody else leaves it alone.
      Move(s, r, Handled).(lock := if s.lock == Some(s.readers[r].id) then None else s.lock)
    case Advance(r) =>
      s.(readers := s.readers[r := Reader(s.readers[r].id, s.readers[r].cursor + 1, Idle)])
    case Restart(r, offset) =>
      var lost := if s.readers[r].phase == Processed then [LostCommit(s.readers[r].cursor)] else [];
      s.(readers := s.readers[r := Reader(s.nextId, offset, Idle)],
         nextId := s.nextId + 1,
         starts := s.starts + [Start(offset, s.highWater)],
         trace := s.trace + lost)
  }

  /** The state after the actions, or None if one of them was not enabled when its turn came. */
  function Exec(s: State, actions: seq<Action>): Option<State> {
    if actions == [] then Some(s)
    else
      var n := |actions| - 1;
      match Exec(s, actions[..n])
      case None => None
      case Some(mid) => if Enabled(mid, actions[n]) then Some(Step(mid, actions[n])) else None
  }

  /** Any number of recommenders about to begin anywhere, where the mark is at `base`. */
  predicate Initial(s: State, base: int) {
    && s.highWater == base
    && s.lock == None
    && s.trace == []
    && s.nextId == |s.readers|
    && |s.starts| == |s.readers|
    && forall r :: 0 <= r < |s.readers| ==>
         s.readers[r].id == r && s.readers[r].phase == Idle && s.starts[r] == Start(s.readers[r].cursor, base)
  }

  // ------------------------------------------------------------ coverage

  ghost predicate ReplayedAt(trace: seq<Event>, k: nat) {
    exists id :: Replayed(id, k) in trace
  }

  ghost predicate RefusedAt(trace: seq<Event>, k: nat) {
    exists id :: Refused(id, k) in trace
  }

  ghost predicate FailedAt(trace: seq<Event>, k: nat) {
    exists id :: Failed(id, k) in trace
  }

  /** A life began beyond k while the mark had not reached k. */
  predicate JumpedOver(s: State, k: int) {
    exists i :: 0 <= i < |s.starts| && s.starts[i].mark < k < s.starts[i].offset
  }

  ghost predicate Touched(s: State, k: nat) {
    ReplayedAt(s.trace, k) || RefusedAt(s.trace, k) || FailedAt(s.trace, k) || JumpedOver(s, k)
  }

  ghost predicate Covered(s: State, base: int) {
    && (forall k: nat :: base < k <= s.highWater ==> Touched(s, k))
    && (forall r, k: nat :: 0 <= r < |s.readers| && base < k < s.readers[r].cursor ==> Touched(s, k))
    && (forall r :: 0 <= r < |s.readers| && s.readers[r].phase in {Processed, Committed, Handled} && s.readers[r].cursor > base
          ==> Touched(s, s.readers[r].cursor))
  }

  lemma TouchedGrows(s: State, t: State, k: nat)
    requires s.trace <= t.trace && s.starts <= t.starts && Touched(s, k)
    ensures Touched(t, k)
  {
    if ReplayedAt(s.trace, k) {
      var id :| Replayed(id, k) in s.trace;
      assert Replayed(id, k) in t.trace;
    } else if RefusedAt(s.trace, k) {
      var id :| Refused(id, k) in s.trace;
      assert Refused(id, k) in t.trace;
    } else if FailedAt(s.trace, k) {
      var id :| Failed(id, k) in s.trace;
      assert Failed(id, k) in t.trace;
    } else {
      var i :| 0 <= i < |s.starts| && s.starts[i].mark < k < s.starts[i].offset;
      assert t.starts[i] == s.starts[i];
    }
  }

  /** What a step newly accounts for: the message it handles, or what its start jumps over. */
  lemma StepTouches(s: State, a: Action, k: nat)
    requires Enabled(s, a)
    ensures Touched(s, k) ==> Touched(Step(s, a), k)
    ensures (a.Process? || a.Refuse? || a.Fail?) && k == s.readers[a.r].cursor ==> Touched(Step(s, a), k)
    ensures a.Restart? && s.highWater < k < a.offset ==> Touched(Step(s, a), k)
  {
    var t := Step(s, a);
    assert s.trace <= t.trace && s.starts <= t.starts;
    if Touched(s, k) { TouchedGrows(s, t, k); }
    match a
    case Process(r) => assert Replayed(s.readers[r].id, s.readers[r].cursor) in t.trace;
    case Refuse(r) => assert Refused(s.readers[r].id, s.readers[r].cursor) in t.trace;
    case Fail(r) => assert Failed(s.readers[r].id, s.readers[r].cursor) in t.trace;
    case Restart(r, offset) => assert t.starts[|s.starts|] == Start(offset, s.highWater);
    case _ =>
  }

  lemma StepCovers(s: State, a: Action, base: int)
    requires Enabled(s, a) && Covered(s, base)
    ensures Covered(Step(s, a), base)
  {
    var t := Step(s, a);
    forall k: nat | base < k <= t.highWater ensures Touched(t, k) {
      StepTouches(s, a, k);
    }
    forall r, k: nat | 0 <= r < |t.readers| && base < k < t.readers[r].cursor ensures Touched(t, k) {
      StepTouches(s, a, k);
      StepCoversBelow(s, a, base, r, k);
    }
    forall r | 0 <= r < |t.readers| && t.readers[r].phase in {Processed, Committed, Handled} && t.readers[r].cursor > base
      ensures Touched(t, t.readers[r].cursor)
    {
      StepTouches(s, a, t.readers[r].cursor);
    }
  }

  lemma StepCoversBelow(s: State, a: Action, base: int, r: nat, k: nat)
    requires Enabled(s, a) && Covered(s, base) && r < |s.readers| && base < k < Step(s, a).readers[r].cursor
    ensures Touched(s, k) || (a.Restart? && s.highWater < k < a.offset)
  {
    var p := s.readers[r];
    if k < p.cursor {
      assert Touched(s, k);
    } else if a.Advance? && a.r == r {
      assert k == p.cursor && p.phase == Handled;
    }
  }

  lemma {:induction false} RunCovers(s0: State, actions: seq<Action>, base: int)
    requires Initial(s0, base) && Exec(s0, actions).Some?
    ensures Covered(Exec(s0, actions).value, base)
  {
    if actions != [] {
      var n := |actions| - 1;
      RunCovers(s0, actions[..n], base);
      StepCovers(Exec(s0, actions[..n]).value, actions[n], base);
    } else {
      forall r, k: nat | 0 <= r < |s0.readers| && base < k < s0.readers[r].cursor
        ensures Touched(s0, k)
      {
        assert s0.starts[r].mark < k < s0.starts[r].offset;
      }
    }
  }

  /**
   Whatever the number of recommenders, their interleaving, where they start and restart, and the
   expiries of the lock: an offset that some cursor has passed, or that the mark has reached, was
   replayed with mutation, unless somebody was refused the lock for it, failed on it or began
   beyond it.
   */
  lemma EveryPassedOffsetIsReplayed(s0: State, actions: seq<Action>, base: int, k: nat)
    requires Initial(s0, base) && Exec(s0, actions).Some?
    requires base < k
    requires var s := Exec(s0, actions).value;
             k <= s.highWater || exists r :: 0 <= r < |s.readers| && k < s.readers[r].cursor
    ensures var s := Exec(s0, actions).value;
            ReplayedAt(s.trace, k) || RefusedAt(s.trace, k) || FailedAt(s.trace, k) || JumpedOver(s, k)
  {
    RunCovers(s0, actions, base);
    assert Touched(Exec(s0, actions).value, k);
  }

  // ------------------------------------------------------------ mutual exclusion

  predicate Critical(p: Reader) {
    p.phase == Holding || p.phase == Processed || p.phase == Committed
  }

  /** Every life has its own id. */
  ghost predicate DistinctLives(s: State) {
    && (forall r :: 0 <= r < |s.readers| ==> s.readers[r].id < s.nextId)
    && (forall q, r :: 0 <= q < r < |s.readers| ==> s.readers[q].id != s.readers[r].id)
  }

  ghost predicate Guarded(s: State) {
    && (forall r :: 0 <= r < |s.readers| && Critical(s.readers[r]) ==>
          s.lock == Some(s.readers[r].id) || Expired(s.readers[r].id) in s.trace)
  }

  lemma StepGuards(s: State, a: Action)
    requires Enabled(s, a) && DistinctLives(s) && Guarded(s)
    ensures DistinctLives(Step(s, a)) && Guarded(Step(s, a))
  {
    var t := Step(s, a);
    assert s.trace <= t.trace;
    forall r | 0 <= r < |t.readers| && Critical(t.readers[r])
      ensures t.lock == Some(t.readers[r].id) || Expired(t.readers[r].id) in t.trace
    {
      assert t.readers[r].id == s.readers[r].id;
      if s.lock == Some(s.readers[r].id) && t.lock != s.lock {
        assert a.Expire? ==> t.trace[|s.trace|] == Expired(s.readers[r].id);
      }
    }
  }

  lemma {:induction false} RunGuards(s0: State, actions: seq<Action>, base: int)
    requires Initial(s0, base) && Exec(s0, actions).Some?
    ensures DistinctLives(Exec(s0, actions).value) && Guarded(Exec(s0, actions).value)
  {
    if actions != [] {
      var n := |actions| - 1;
      RunGuards(s0, actions[..n], base);
      StepGuards(Exec(s0, actions[..n]).value, actions[n]);
    }
  }

  /** Two replays overlap only if the lock expired under one of the two. */
  lemma ReplaysExcludeEachOther(s0: State, actions: seq<Action>, base: int, q: nat, r: nat)
    requires Initial(s0, base) && Exec(s0, actions).Some?
    requires var s := Exec(s0, actions).value;
             q < r < |s.readers| && Critical(s.readers[q]) && Critical(s.readers[r])
    ensures var s := Exec(s0, actions).value;
            Expired(s.readers[q].id) in s.trace || Expired(s.readers[r].id) in s.trace
  {
    RunGuards(s0, actions, base);
  }

  /** The lock is taken by whoever acquires it while it is free; it comes free when its holder is done or has failed, or by expiry. */
  lemma LockChanges(s: State, a: Action)
    requires Enabled(s, a)
    ensures var t := Step(s, a);
      && (a.Acquire? ==> s.lock.None? && t.lock == Some(s.readers[a.r].id))
      && (a.Expire? ==> t.lock == None)
      && (a.Release? || a.Fail? ==> t.lock != Some(s.readers[a.r].id))
      && (t.lock != s.lock ==>
            a.Acquire? || a.Expire? || ((a.Release? || a.Fail?) && s.lock == Some(s.readers[a.r].id) && t.lock == None))
  {
  }

  /** A message is replayed only above the mark; below it is applied at once. */
  lemma FetchTests(s: State, r: nat)
    requires Enabled(s, Fetch(r))
    ensures var p, t := s.readers[r], Step(s, Fetch(r));
      if s.highWater < p.cursor then t.readers[r] == p.(phase := Waiting) && t.trace == s.trace
      else t.readers[r] == p.(phase := Handled) && t.trace == s.trace + [Applied(p.id, p.cursor)]
  {
  }

  /** The mark moves only when a reader commits, and then to that reader's offset. */
  lemma MarkChanges(s: State, a: Action)
    requires Enabled(s, a)
    ensures Step(s, a).highWater == if a.Commit? then s.readers[a.r].cursor else s.highWater
  {
  }

  /** A cursor moves only by one, behind a message that is done with, or because a new life begins elsewhere. */
  lemma CursorChanges(s: State, a: Action, r: nat)
    requires Enabled(s, a) && r < |s.readers|
    ensures var p, q := s.readers[r], Step(s, a).readers[r];
      if a == Advance(r) then q == Reader(p.id, p.cursor + 1, Idle)
      else if a.Restart? && a.r == r then q == Reader(s.nextId, a.offset, Idle)
      else q.id == p.id && q.cursor == p.cursor
  {
  }

  /** A reader that is past its test is at a message of the log, and so was everything that happened to one. */
  ghost predicate WithinTheLog(s: State) {
    && (forall r :: 0 <= r < |s.readers| && s.readers[r].phase != Idle ==> s.readers[r].cursor < s.logEnd)
    && (forall e :: e in s.trace && !e.Expired? ==> e.offset < s.logEnd)
  }

  /** Nothing is handled before it is in the log. */
  lemma {:induction false} OnlyTheLogIsHandled(s0: State, actions: seq<Action>, base: int)
    requires Initial(s0, base) && Exec(s0, actions).Some?
    ensures WithinTheLog(Exec(s0, actions).value)
  {
    if actions != [] {
      var n := |actions| - 1;
      OnlyTheLogIsHandled(s0, actions[..n], base);
      StepStaysWithinTheLog(Exec(s0, actions[..n]).value, actions[n]);
    }
  }

  lemma StepStaysWithinTheLog(s: State, a: Action)
    requires Enabled(s, a) && WithinTheLog(s)
    ensures WithinTheLog(Step(s, a))
  {
    var t := Step(s, a);
    forall e | e in t.trace && !e.Expired? ensures e.offset < t.logEnd {
      if e !in s.trace { assert e == t.trace[|s.trace|]; }
    }
  }

  /** The life is over: a restart has replaced it. */
  predicate Ended(s: State, id: nat) {
    id < s.nextId && forall r :: 0 <= r < |s.readers| ==> s.readers[r].id != id
  }

  predicate InLockedPart(s: State, id: nat) {
    exists r :: 0 <= r < |s.readers| && s.readers[r].id == id && Critical(s.readers[r])
  }

  /** Nobody keeps the lock who has left the locked part, unless by dying there. */
  ghost predicate NobodyKeepsTheLock(s: State) {
    s.lock.Some? ==> InLockedPart(s, s.lock.value) || Ended(s, s.lock.value)
  }

  lemma StaysInLockedPart(s: State, a: Action, id: nat)
    requires Enabled(s, a) && DistinctLives(s) && InLockedPart(s, id) && Step(s, a).lock == Some(id)
    ensures InLockedPart(Step(s, a), id) || Ended(Step(s, a), id)
  {
    var t := Step(s, a);
    var r :| 0 <= r < |s.readers| && s.readers[r].id == id && Critical(s.readers[r]);
    if a.Restart? && a.r == r {
      assert Ended(t, id);
    } else {
      assert t.readers[r].id == id && Critical(t.readers[r]);
    }
  }

  lemma StepGivesTheLockBack(s: State, a: Action)
    requires Enabled(s, a) && DistinctLives(s) && NobodyKeepsTheLock(s)
    ensures NobodyKeepsTheLock(Step(s, a))
  {
    var t := Step(s, a);
    if t.lock.Some? {
      if t.lock != s.lock {
        assert t.readers[a.r].id == t.lock.value && Critical(t.readers[a.r]);
      } else if InLockedPart(s, s.lock.value) {
        StaysInLockedPart(s, a, s.lock.value);
      } else {
        assert Ended(t, s.lock.value);
      }
    }
  }

  /**
   In every run, whoever holds the lock is in the locked part, or died there: a replay gives the
   lock back whether it commits or fails.
   */
  lemma {:induction false} LockIsGivenBack(s0: State, actions: seq<Action>, base: int)
    requires Initial(s0, base) && Exec(s0, actions).Some?
    ensures DistinctLives(Exec(s0, actions).value) && NobodyKeepsTheLock(Exec(s0, actions).value)
  {
    RunGuards(s0, actions, base);
    if actions != [] {
      var n := |actions| - 1;
      LockIsGivenBack(s0, actions[..n], base);
      StepGivesTheLockBack(Exec(s0, actions[..n]).value, actions[n]);
    }
  }

  // ------------------------------------------------------------ how often an offset is replayed

  function ReplayCount(trace: seq<Event>, k: nat): (n: nat) {
    if trace == [] then 0
    else
      var e := trace[|trace| - 1];
      ReplayCount(trace[..|trace| - 1], k) + (if e.Replayed? && e.offset == k then 1 else 0)
  }

  /** The lives that replayed offset k. */
  function Replayers(trace: seq<Event>, k: nat): set<nat> {
    set e | e in trace && e.Replayed? && e.offset == k :: e.id
  }

  /** The reader took its message, one way or another. */
  predicate Takes(e: Event) {
    e.Replayed? || e.Applied? || e.Refused? || e.Failed?
  }

  /** The last offset a life has taken is at its cursor, or just below it. */
  ghost predicate CursorOrder(s: State) {
    && (forall e :: e in s.trace && Takes(e) ==> e.id < s.nextId)
    && (forall r, e :: 0 <= r < |s.readers| && e in s.trace && Takes(e) && e.id == s.readers[r].id ==>
          || e.offset < s.readers[r].cursor
          || (e.offset == s.readers[r].cursor && s.readers[r].phase in {Processed, Committed, Handled}))
  }

  ghost predicate TakenUpwards(trace: seq<Event>) {
    forall i, j :: 0 <= i < j < |trace| && Takes(trace[i]) && Takes(trace[j]) && trace[i].id == trace[j].id ==>
      trace[i].offset < trace[j].offset
  }

  ghost predicate OncePerLife(s: State) {
    && CursorOrder(s)
    && TakenUpwards(s.trace)
    && (forall k: nat :: ReplayCount(s.trace, k) == |Replayers(s.trace, k)|)
  }

  lemma ReplayersAfter(trace: seq<Event>, e: Event, k: nat)
    ensures Replayers(trace + [e], k) == Replayers(trace, k) + (if e.Replayed? && e.offset == k then {e.id} else {})
  {
    assert forall x :: x in trace + [e] <==> x in trace || x == e;
  }

  /** A step records nothing, or one event; if that takes a message, it is the one at the cursor of `a.r`. */
  lemma StepRecords(s: State, a: Action)
    requires Enabled(s, a)
    ensures var t := Step(s, a);
            || t.trace == s.trace
            || exists e :: t.trace == s.trace + [e] && (Takes(e) ==>
                 && (a.Fetch? || a.Refuse? || a.Process? || a.Fail?)
                 && e.id == s.readers[a.r].id && e.offset == s.readers[a.r].cursor
                 && s.readers[a.r].phase in {Idle, Waiting, Holding}
                 && t.readers[a.r] == Reader(e.id, e.offset, if a.Process? then Processed else Handled))
  {
    var t := Step(s, a);
    if |t.trace| == |s.trace| {
      assert t.trace == s.trace;
    } else {
      assert t.trace == s.trace + [t.trace[|s.trace|]];
    }
  }

  lemma StepKeepsCursorOrder(s: State, a: Action)
    requires Enabled(s, a) && DistinctLives(s) && CursorOrder(s)
    ensures CursorOrder(Step(s, a))
  {
    StepRecords(s, a);
  }

  lemma StepTakesUpwards(s: State, a: Action)
    requires Enabled(s, a) && CursorOrder(s) && TakenUpwards(s.trace)
    ensures TakenUpwards(Step(s, a).trace)
  {
    StepRecords(s, a);
    var t := Step(s, a);
    forall i, j | 0 <= i < j < |t.trace| && Takes(t.trace[i]) && Takes(t.trace[j]) && t.trace[i].id == t.trace[j].id
      ensures t.trace[i].offset < t.trace[j].offset
    {
      assert t.trace[i] == s.trace[i] && s.trace[i] in s.trace;
    }
  }

  lemma StepCountsReplayers(s: State, a: Action, k: nat)
    requires Enabled(s, a) && CursorOrder(s)
    requires ReplayCount(s.trace, k) == |Replayers(s.trace, k)|
    ensures ReplayCount(Step(s, a).trace, k) == |Replayers(Step(s, a).trace, k)|
  {
    StepRecords(s, a);
    CountsOfStep(s, a, k);
    var t := Step(s, a);
    if t.trace != s.trace {
      var e := t.trace[|s.trace|];
      assert t.trace == s.trace + [e];
      ReplayersAfter(s.trace, e, k);
      if a.Process? && s.readers[a.r].cursor == k {
        assert e == Replayed(s.readers[a.r].id, k);
        assert e.id !in Replayers(s.trace, k);
      }
    }
  }

  lemma StepOncePerLife(s: State, a: Action)
    requires Enabled(s, a) && DistinctLives(s) && OncePerLife(s)
    ensures OncePerLife(Step(s, a))
  {
    StepKeepsCursorOrder(s, a);
    StepTakesUpwards(s, a);
    forall k: nat
      ensures ReplayCount(Step(s, a).trace, k) == |Replayers(Step(s, a).trace, k)|
    {
      StepCountsReplayers(s, a, k);
    }
  }

  lemma {:induction false} RunOncePerLife(s0: State, actions: seq<Action>, base: int)
    requires Initial(s0, base) && Exec(s0, actions).Some?
    ensures OncePerLife(Exec(s0, actions).value)
  {
    if actions == [] {
      assert forall k: nat :: Replayers(s0.trace, k) == {};
    } else {
      var n := |actions| - 1;
      RunOncePerLife(s0, actions[..n], base);
      RunGuards(s0, actions[..n], base);
      StepOncePerLife(Exec(s0, actions[..n]).value, actions[n]);
    }
  }

  function Restarts(actions: seq<Action>): (n: nat) {
    if actions == [] then 0
    else Restarts(actions[..|actions| - 1]) + (if actions[|actions| - 1].Restart? then 1 else 0)
  }

  lemma {:induction false} LivesOfRun(s0: State, actions: seq<Action>)
    requires Exec(s0, actions).Some?
    ensures Exec(s0, actions).value.nextId == s0.nextId + Restarts(actions)
    ensures |Exec(s0, actions).value.readers| == |s0.readers|
  {
    if actions != [] {
      var n := |actions| - 1;
      LivesOfRun(s0, actions[..n]);
      StepStarts(Exec(s0, actions[..n]).value, actions[n]);
    }
  }

  /** No offset is replayed more often than there were recommenders plus restarts. */
  lemma ReplayBound(s0: State, actions: seq<Action>, base: int, k: nat)
    requires Initial(s0, base) && Exec(s0, actions).Some?
    ensures ReplayCount(Exec(s0, actions).value.trace, k) <= |s0.readers| + Restarts(actions)
  {
    RunOncePerLife(s0, actions, base);
    LivesOfRun(s0, actions);
    var s := Exec(s0, actions).value;
    BoundedSetSize(Replayers(s.trace, k), s.nextId);
  }

  /** One life meets the offsets in strictly increasing order. */
  lemma LifeInOrder(s0: State, actions: seq<Action>, base: int, i: nat, j: nat)
    requires Initial(s0, base) && Exec(s0, actions).Some?
    requires var trace := Exec(s0, actions).value.trace;
             i < j < |trace| && Takes(trace[i]) && Takes(trace[j]) && trace[i].id == trace[j].id
    ensures var trace := Exec(s0, actions).value.trace;
            trace[i].offset < trace[j].offset
  {
    RunOncePerLife(s0, actions, base);
  }

  // ------------------------------------------------------------ what a step counts

  function LostCount(trace: seq<Event>, k: nat): (n: nat) {
    if trace == [] then 0
    else LostCount(trace[..|trace| - 1], k) + (if trace[|trace| - 1] == LostCommit(k) then 1 else 0)
  }

  function BoolToNat(b: bool): nat {
    if b then 1 else 0
  }

  lemma CountAfter(trace: seq<Event>, e: Event, k: nat)
    ensures ReplayCount(trace + [e], k) == ReplayCount(trace, k) + BoolToNat(e.Replayed? && e.offset == k)
    ensures LostCount(trace + [e], k) == LostCount(trace, k) + BoolToNat(e == LostCommit(k))
  {
    assert (trace + [e])[..|trace|] == trace;
  }

  /** Only processing adds a replay, and only a death between processing and commit adds a lost commit. */
  lemma CountsOfStep(s: State, a: Action, k: nat)
    requires Enabled(s, a)
    ensures ReplayCount(Step(s, a).trace, k) == ReplayCount(s.trace, k) + BoolToNat(a.Process? && s.readers[a.r].cursor == k)
    ensures LostCount(Step(s, a).trace, k) ==
            LostCount(s.trace, k) + BoolToNat(a.Restart? && s.readers[a.r].phase == Processed && s.readers[a.r].cursor == k)
  {
    StepRecords(s, a);
    var t := Step(s, a);
    if t.trace != s.trace {
      var e := t.trace[|s.trace|];
      CountAfter(s.trace, e, k);
      assert t.trace == s.trace + [e];
    }
  }

  /** Only a restart adds a start and a life. */
  lemma StepStarts(s: State, a: Action)
    requires Enabled(s, a)
    ensures var t := Step(s, a);
      && s.starts <= t.starts && |t.starts| == |s.starts| + BoolToNat(a.Restart?)
      && t.nextId == s.nextId + BoolToNat(a.Restart?) && |t.readers| == |s.readers|
  {
  }

  // ------------------------------------------------------------ composing runs

  lemma {:induction false} ExecConcat(s: State, a: seq<Action>, b: seq<Action>)
    requires Exec(s, a).Some?
    ensures Exec(s, a + b) == Exec(Exec(s, a).value, b)
  {
    if b == [] {
      assert a + b == a;
    } else {
      ExecConcat(s, a, b[..|b| - 1]);
      assert (a + b)[..|a + b| - 1] == a + b[..|b| - 1];
    }
  }

  lemma ExecOne(s: State, a: Action)
    requires Enabled(s, a)
    ensures Exec(s, [a]) == Some(Step(s, a))
  {
    assert [a][..0] == [];
  }

  lemma Extend(s0: State, actions: seq<Action>, a: Action)
    requires Exec(s0, actions).Some? && Enabled(Exec(s0, actions).value, a)
    ensures Exec(s0, actions + [a]) == Some(Step(Exec(s0, actions).value, a))
  {
    assert (actions + [a])[..|actions|] == actions;
  }
}
