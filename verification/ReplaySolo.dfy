/** One recommender alone: how often, in which order and which offsets it replays. */
module ReplaySolo {
  import opened Common
  import opened ReplayProtocol

  /** Nobody is refused the lock, and no processing raises. */
  predicate NoneMissed(actions: seq<Action>) {
    forall a :: a in actions ==> !a.Refuse? && !a.Fail?
  }

  /** Where a lone reader that misses nothing can stand relative to the mark. */
  ghost predicate SoloPosition(s: State, base: int) {
    && |s.readers| == 1
    && base <= s.highWater
    && var p := s.readers[0];
       && (p.phase in {Waiting, Holding, Processed} ==> p.cursor > s.highWater)
       && (p.phase in {Committed, Handled} ==> p.cursor <= s.highWater)
       && (forall k :: s.highWater < k < p.cursor ==> JumpedOver(s, k))
  }

  /** The lone reader has processed k and not committed it yet. */
  predicate InFlight(s: State, k: nat) {
    |s.readers| == 1 && s.readers[0].phase == Processed && s.readers[0].cursor == k
  }

  ghost predicate SoloCount(s: State, base: int, k: nat) {
    && (k > s.highWater ==> ReplayCount(s.trace, k) == LostCount(s.trace, k) + BoolToNat(InFlight(s, k)))
    && (base < k <= s.highWater ==> LostCount(s.trace, k) <= ReplayCount(s.trace, k) <= 1 + LostCount(s.trace, k))
    && (base < k <= s.highWater && !JumpedOver(s, k) ==> ReplayCount(s.trace, k) == 1 + LostCount(s.trace, k))
  }

  ghost predicate SoloCounts(s: State, base: int) {
    forall k: nat :: SoloCount(s, base, k)
  }

  /** No life began more than one past the mark. */
  predicate NoJumps(s: State) {
    forall i :: 0 <= i < |s.starts| ==> s.starts[i].offset <= s.starts[i].mark + 1
  }

  ghost predicate SoloOrder(s: State) {
    && (forall e :: e in s.trace && e.Replayed? ==> e.offset <= s.highWater + 1)
    && (forall i, j :: 0 <= i < j < |s.trace| && s.trace[i].Replayed? && s.trace[j].Replayed? ==>
          s.trace[i].offset <= s.trace[j].offset)
  }

  /** What is applied without mutation was replayed before, or jumped over. */
  ghost predicate AppliedLater(s: State, base: int) {
    forall i :: 0 <= i < |s.trace| && s.trace[i].Applied? && s.trace[i].offset > base ==>
      ReplayedAt(s.trace[..i], s.trace[i].offset) || JumpedOver(s, s.trace[i].offset)
  }

  lemma {:induction false} CountedMeansReplayed(trace: seq<Event>, k: nat)
    requires ReplayCount(trace, k) > 0
    ensures ReplayedAt(trace, k)
  {
    var e := trace[|trace| - 1];
    if e.Replayed? && e.offset == k {
      assert Replayed(e.id, k) in trace;
    } else {
      CountedMeansReplayed(trace[..|trace| - 1], k);
      var id :| Replayed(id, k) in trace[..|trace| - 1];
      assert Replayed(id, k) in trace;
    }
  }

  lemma JumpsGrow(s: State, a: Action, k: int)
    requires Enabled(s, a) && JumpedOver(s, k)
    ensures JumpedOver(Step(s, a), k)
  {
    var i :| 0 <= i < |s.starts| && s.starts[i].mark < k < s.starts[i].offset;
    assert Step(s, a).starts[i] == s.starts[i];
  }

  lemma StepSoloPosition(s: State, a: Action, base: int)
    requires Enabled(s, a) && !a.Refuse? && !a.Fail? && SoloPosition(s, base)
    ensures SoloPosition(Step(s, a), base)
  {
    var t := Step(s, a);
    forall k | t.highWater < k < t.readers[0].cursor
      ensures JumpedOver(t, k)
    {
      if a.Restart? {
        assert t.starts[|s.starts|] == Start(a.offset, s.highWater);
      } else {
        JumpsGrow(s, a, k);
      }
    }
  }

  lemma StepSoloCount(s: State, a: Action, base: int, k: nat)
    requires Enabled(s, a) && !a.Refuse? && !a.Fail? && SoloPosition(s, base) && SoloCount(s, base, k)
    ensures SoloCount(Step(s, a), base, k)
  {
    var p := s.readers[0];
    assert s.highWater < k < p.cursor ==> JumpedOver(s, k);
    if JumpedOver(s, k) { JumpsGrow(s, a, k); }
    CountsOfStep(s, a, k);
    if a.Commit? {
      CommitCounts(s, a, base, k);
    } else {
      assert Step(s, a).highWater == s.highWater;
      assert BoolToNat(InFlight(Step(s, a), k)) + BoolToNat(a.Restart? && InFlight(s, k))
          == BoolToNat(InFlight(s, k)) + BoolToNat(a.Process? && p.cursor == k);
    }
  }

  lemma CommitCounts(s: State, a: Action, base: int, k: nat)
    requires Enabled(s, a) && a.Commit? && |s.readers| == 1 && base <= s.highWater < s.readers[0].cursor && SoloCount(s, base, k)
    requires s.highWater < k < s.readers[0].cursor ==> JumpedOver(s, k)
    ensures SoloCount(Step(s, a), base, k)
  {
    var t := Step(s, a);
    assert t.trace == s.trace && t.starts == s.starts && t.highWater == s.readers[0].cursor && !InFlight(t, k);
    assert JumpedOver(t, k) == JumpedOver(s, k);
  }

  lemma NothingJumpedOver(s: State, k: int)
    requires NoJumps(s)
    ensures !JumpedOver(s, k)
  {
  }

  lemma StepSoloOrder(s: State, a: Action, base: int)
    requires Enabled(s, a) && !a.Refuse? && !a.Fail? && SoloPosition(s, base) && SoloOrder(s) && NoJumps(s)
    ensures SoloOrder(Step(s, a))
  {
    StepRecords(s, a);
    var t := Step(s, a);
    NothingJumpedOver(s, s.highWater + 1);
    assert s.readers[0].cursor <= s.highWater + 1;
    forall i, j | 0 <= i < j < |t.trace| && t.trace[i].Replayed? && t.trace[j].Replayed?
      ensures t.trace[i].offset <= t.trace[j].offset
    {
      assert t.trace[i] == s.trace[i] && s.trace[i] in s.trace;
    }
  }

  lemma NoJumpsBefore(s: State, a: Action)
    requires Enabled(s, a) && NoJumps(Step(s, a))
    ensures NoJumps(s)
  {
    forall i | 0 <= i < |s.starts| ensures s.starts[i].offset <= s.starts[i].mark + 1 {
      assert Step(s, a).starts[i] == s.starts[i];
    }
  }

  lemma StepAppliesLater(s: State, a: Action, base: int)
    requires Enabled(s, a) && SoloPosition(s, base) && SoloCounts(s, base) && AppliedLater(s, base)
    ensures AppliedLater(Step(s, a), base)
  {
    StepRecords(s, a);
    var t := Step(s, a);
    forall i | 0 <= i < |t.trace| && t.trace[i].Applied? && t.trace[i].offset > base
      ensures ReplayedAt(t.trace[..i], t.trace[i].offset) || JumpedOver(t, t.trace[i].offset)
    {
      var k := t.trace[i].offset;
      if i < |s.trace| {
        assert t.trace[..i] == s.trace[..i] && t.trace[i] == s.trace[i];
      } else {
        assert t.trace[..i] == s.trace;
        assert SoloCount(s, base, k);
        if !JumpedOver(s, k) { CountedMeansReplayed(s.trace, k); }
      }
      if JumpedOver(s, k) { JumpsGrow(s, a, k); }
    }
  }

  lemma {:induction false} RunSolo(s0: State, actions: seq<Action>, base: int)
    requires Initial(s0, base) && |s0.readers| == 1 && base >= -1
    requires Exec(s0, actions).Some? && NoneMissed(actions)
    ensures var s := Exec(s0, actions).value;
            SoloPosition(s, base) && SoloCounts(s, base) && (NoJumps(s) ==> SoloOrder(s)) && AppliedLater(s, base)
  {
    if actions == [] {
      forall k | base < k < s0.readers[0].cursor ensures JumpedOver(s0, k) {
        assert s0.starts[0].mark < k < s0.starts[0].offset;
      }
    } else {
      var n := |actions| - 1;
      RunSolo(s0, actions[..n], base);
      var s, a := Exec(s0, actions[..n]).value, actions[n];
      StepSoloPosition(s, a, base);
      forall k: nat
        ensures SoloCount(Step(s, a), base, k)
      {
        assert SoloCount(s, base, k);
        StepSoloCount(s, a, base, k);
      }
      if NoJumps(Step(s, a)) {
        NoJumpsBefore(s, a);
        StepSoloOrder(s, a, base);
      }
      StepAppliesLater(s, a, base);
    }
  }

  /**
   One recommender, restarted anywhere and any number of times, never refused or failing: an
   offset up to the mark was replayed at most once, plus once for every death between its
   processing and its commit. Unless a life began beyond it, "at most" is "exactly", and so
   "exactly once" holds for it if and only if there was no such death.
   */
  lemma SoloReplaysExactlyOnce(s0: State, actions: seq<Action>, base: int, k: nat)
    requires Initial(s0, base) && |s0.readers| == 1 && base >= -1
    requires Exec(s0, actions).Some? && NoneMissed(actions)
    requires base < k <= Exec(s0, actions).value.highWater
    ensures var s := Exec(s0, actions).value;
            && ReplayCount(s.trace, k) <= 1 + LostCount(s.trace, k)
            && (!JumpedOver(s, k) ==>
                  && ReplayCount(s.trace, k) == 1 + LostCount(s.trace, k)
                  && (ReplayCount(s.trace, k) == 1 <==> LostCommit(k) !in s.trace))
  {
    RunSolo(s0, actions, base);
    assert SoloCount(Exec(s0, actions).value, base, k);
    LostMeansRecorded(Exec(s0, actions).value.trace, k);
  }

  lemma {:induction false} LostMeansRecorded(trace: seq<Event>, k: nat)
    ensures LostCount(trace, k) > 0 <==> LostCommit(k) in trace
  {
    if trace != [] {
      LostMeansRecorded(trace[..|trace| - 1], k);
      assert trace == trace[..|trace| - 1] + [trace[|trace| - 1]];
    }
  }

  /**
   The same runs apply an offset without mutation only after its replay or a jump over it. If no
   life began more than one past the mark, they replay in offset order.
   */
  lemma SoloReplaysInOrder(s0: State, actions: seq<Action>, base: int, i: nat, j: nat)
    requires Initial(s0, base) && |s0.readers| == 1 && base >= -1
    requires Exec(s0, actions).Some? && NoneMissed(actions)
    requires i < j < |Exec(s0, actions).value.trace|
    ensures var s := Exec(s0, actions).value;
            && (NoJumps(s) && s.trace[i].Replayed? && s.trace[j].Replayed? ==> s.trace[i].offset <= s.trace[j].offset)
            && (s.trace[j].Applied? && s.trace[j].offset > base ==>
                  ReplayedAt(s.trace[..j], s.trace[j].offset) || JumpedOver(s, s.trace[j].offset))
  {
    RunSolo(s0, actions, base);
  }

  /** Where the offsets replayed so far can lie when no commit was lost. */
  ghost predicate LosslessOrder(s: State) {
    && LoneAboveTheMark(s)
    && (forall e :: e in s.trace && e.Replayed? ==> e.offset <= s.highWater || InFlight(s, e.offset))
    && (forall i, j :: 0 <= i < j < |s.trace| && s.trace[i].Replayed? && s.trace[j].Replayed? ==>
          s.trace[i].offset < s.trace[j].offset)
  }

  ghost predicate NothingLost(trace: seq<Event>) {
    forall e :: e in trace ==> !e.LostCommit?
  }

  lemma DeathIsRecorded(s: State, a: Action)
    requires Enabled(s, a) && a.Restart? && s.readers[a.r].phase == Processed
    ensures LostCommit(s.readers[a.r].cursor) in Step(s, a).trace
  {
    assert Step(s, a).trace[|s.trace|] == LostCommit(s.readers[a.r].cursor);
  }

  lemma StepKeepsLosslessOrder(s: State, a: Action)
    requires Enabled(s, a) && LosslessOrder(s) && NothingLost(Step(s, a).trace)
    ensures LosslessOrder(Step(s, a))
  {
    StepRecords(s, a);
    var t := Step(s, a);
    if a.Restart? && s.readers[0].phase == Processed {
      DeathIsRecorded(s, a);
      assert false;
    }
    forall i, j | 0 <= i < j < |t.trace| && t.trace[i].Replayed? && t.trace[j].Replayed?
      ensures t.trace[i].offset < t.trace[j].offset
    {
      assert t.trace[i] == s.trace[i] && s.trace[i] in s.trace;
    }
  }

  lemma NothingLostBefore(s: State, a: Action)
    requires Enabled(s, a) && NothingLost(Step(s, a).trace)
    ensures NothingLost(s.trace)
  {
    assert s.trace <= Step(s, a).trace;
  }

  lemma {:induction false} RunKeepsLosslessOrder(s0: State, actions: seq<Action>, base: int)
    requires Initial(s0, base) && |s0.readers| == 1
    requires Exec(s0, actions).Some? && NothingLost(Exec(s0, actions).value.trace)
    ensures LosslessOrder(Exec(s0, actions).value)
  {
    if actions != [] {
      var n := |actions| - 1;
      NothingLostBefore(Exec(s0, actions[..n]).value, actions[n]);
      RunKeepsLosslessOrder(s0, actions[..n], base);
      StepKeepsLosslessOrder(Exec(s0, actions[..n]).value, actions[n]);
    }
  }

  /** One recommender that loses no commit replays in strictly increasing order, whatever it jumps over, is refused or fails on. */
  lemma LosslessReplaysIncrease(s0: State, actions: seq<Action>, base: int, i: nat, j: nat)
    requires Initial(s0, base) && |s0.readers| == 1
    requires Exec(s0, actions).Some? && NothingLost(Exec(s0, actions).value.trace)
    requires i < j < |Exec(s0, actions).value.trace|
    ensures var trace := Exec(s0, actions).value.trace;
      trace[i].Replayed? && trace[j].Replayed? ==> trace[i].offset < trace[j].offset
  {
    RunKeepsLosslessOrder(s0, actions, base);
  }

  /** From a fresh life, fetch the message at the cursor and process it under the lock. */
  lemma FetchAndProcess(s: State) returns (actions: seq<Action>)
    requires |s.readers| == 1 && s.readers[0].phase == Idle && s.lock.None?
    requires s.highWater < s.readers[0].cursor < s.logEnd
    ensures NoneMissed(actions)
    ensures var p := s.readers[0];
      Exec(s, actions) == Some(s.(readers := [p.(phase := Processed)], lock := Some(p.id), trace := s.trace + [Replayed(p.id, p.cursor)]))
  {
    var p := s.readers[0];
    ExecOne(s, Fetch(0));
    Extend(s, [Fetch(0)], Acquire(0));
    Extend(s, [Fetch(0)] + [Acquire(0)], Process(0));
    actions := [Fetch(0)] + [Acquire(0)] + [Process(0)];
    assert Exec(s, actions).value.readers == [p.(phase := Processed)];
  }

  /** The life dies, its lock expires, and the next one begins at the offset. */
  lemma DieAndBegin(s: State, offset: nat) returns (actions: seq<Action>)
    requires |s.readers| == 1 && s.lock.Some?
    ensures NoneMissed(actions)
    ensures var lost := if s.readers[0].phase == Processed then [LostCommit(s.readers[0].cursor)] else [];
      Exec(s, actions) == Some(s.(
        readers := [Reader(s.nextId, offset, Idle)], lock := None, nextId := s.nextId + 1,
        starts := s.starts + [Start(offset, s.highWater)],
        trace := s.trace + [Expired(s.lock.value)] + lost))
  {
    ExecOne(s, Expire);
    Extend(s, [Expire], Restart(0, offset));
    actions := [Expire] + [Restart(0, offset)];
    assert Exec(s, actions).value.readers == [Reader(s.nextId, offset, Idle)];
  }

  /**
   With both a jump and a lost commit the order breaks: a life that began one offset too far
   processes its message and dies before the commit, and the next one begins at the skipped one.
   */
  lemma JumpAndLossBreakTheOrder(s0: State, base: int) returns (actions: seq<Action>, i: nat, j: nat)
    requires Initial(s0, base) && |s0.readers| == 1 && base >= -1
    requires s0.readers[0].cursor == base + 2 && base + 2 < s0.logEnd
    ensures NoneMissed(actions) && Exec(s0, actions).Some?
    ensures var trace := Exec(s0, actions).value.trace;
      i < j < |trace| && trace[i].Replayed? && trace[j].Replayed? && trace[i].offset > trace[j].offset
  {
    var a1 := FetchAndProcess(s0);
    var s1 := Exec(s0, a1).value;
    var a2 := DieAndBegin(s1, base + 1);
    var s2 := Exec(s1, a2).value;
    var a3 := FetchAndProcess(s2);
    ExecConcat(s0, a1, a2);
    ExecConcat(s0, a1 + a2, a3);
    actions, i, j := a1 + a2 + a3, 0, |s2.trace|;
    assert Exec(s0, actions).value.trace[0] == s1.trace[0];
  }

  lemma {:induction false} StartsOfRun(s0: State, actions: seq<Action>)
    requires Exec(s0, actions).Some?
    ensures s0.starts <= Exec(s0, actions).value.starts
    ensures |Exec(s0, actions).value.starts| == |s0.starts| + Restarts(actions)
  {
    if actions != [] {
      var n := |actions| - 1;
      StartsOfRun(s0, actions[..n]);
      StepStarts(Exec(s0, actions[..n]).value, actions[n]);
    }
  }

  /** A lone life that was never restarted has replayed exactly those of the offsets it met on which it was neither refused nor failed. */
  lemma LoneLifeReplaysUnlessMissed(s0: State, actions: seq<Action>, base: int, k: nat)
    requires Initial(s0, base) && |s0.readers| == 1
    requires Exec(s0, actions).Some? && Restarts(actions) == 0
    requires base < k && s0.readers[0].cursor <= k
    requires |Exec(s0, actions).value.readers| == 1 && k < Exec(s0, actions).value.readers[0].cursor
    ensures var trace := Exec(s0, actions).value.trace;
      ReplayedAt(trace, k) <==> !RefusedAt(trace, k) && !FailedAt(trace, k)
  {
    var s := Exec(s0, actions).value;
    EveryPassedOffsetIsReplayed(s0, actions, base, k);
    StartsOfRun(s0, actions);
    assert !JumpedOver(s, k);
    LivesOfRun(s0, actions);
    RunOncePerLife(s0, actions, base);
    NeverBoth(s.trace, k);
  }

  /** A single life takes an offset in one way only. */
  lemma NeverBoth(trace: seq<Event>, k: nat)
    requires TakenUpwards(trace) && forall e :: e in trace && Takes(e) ==> e.id == 0
    ensures ReplayedAt(trace, k) ==> !RefusedAt(trace, k) && !FailedAt(trace, k)
  {
  }

  /** What a lone reader is about to commit is above the mark. */
  predicate LoneAboveTheMark(s: State) {
    |s.readers| == 1 && (s.readers[0].phase in {Waiting, Holding, Processed} ==> s.readers[0].cursor > s.highWater)
  }

  lemma {:induction false} LoneStaysAbove(s0: State, actions: seq<Action>)
    requires LoneAboveTheMark(s0) && Exec(s0, actions).Some?
    ensures LoneAboveTheMark(Exec(s0, actions).value)
  {
    if actions != [] { LoneStaysAbove(s0, actions[..|actions| - 1]); }
  }

  /** A lone recommender's mark never falls, whatever is refused, expires or restarts. */
  lemma LoneMarkNeverFalls(s0: State, actions: seq<Action>, a: Action, base: int)
    requires Initial(s0, base) && |s0.readers| == 1
    requires Exec(s0, actions).Some? && Enabled(Exec(s0, actions).value, a)
    ensures Step(Exec(s0, actions).value, a).highWater >= Exec(s0, actions).value.highWater
  {
    LoneStaysAbove(s0, actions);
  }
}
