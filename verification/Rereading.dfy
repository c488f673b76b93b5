/**
 When reading a stretch of the log a second time, with the planning horizon where it is by then,
 changes anything.
 */
module Rereading {
  import opened Common
  import opened PlanningEnv
  import opened JobHistory

  // ------------------------------------------------------------ logs

  /** The entry of the same kind, about the same job, with another plan if it has one. */
  function ReplanEntry(r: Reading, code: Code, p: Plan): Reading {
    var c := r.change;
    if c.NoCode? || c.code != code then r
    else
      r.(change :=
        match c
        case CreateJob(k, e) => if e.Encoded? then CreateJob(k, Encoded(p)) else c
        case UpdateJob(k, e, start) => if e.Encoded? then UpdateJob(k, Encoded(p), start) else c
        case RescheduleJob(k, e) => if e.Encoded? then RescheduleJob(k, Encoded(p)) else c
        case RefreshJob(k, _) => RefreshJob(k, p))
  }

  /** The plan of an entry, or any plan if it has none. */
  function PlanIn(c: Change): Plan {
    if c.RefreshJob? then c.refreshed
    else if !c.NoCode? && c.encoding.Encoded? then c.encoding.plan
    else Sample(0)
  }

  /** The two logs differ in plans for one job only. */
  predicate SameShape(a: seq<Reading>, b: seq<Reading>, code: Code) {
    |a| == |b| && forall i :: 0 <= i < |a| ==> b[i] == ReplanEntry(a[i], code, PlanIn(b[i].change))
  }

  function ReplanLog(changes: seq<Reading>, code: Code, plans: seq<Plan>): (r: seq<Reading>)
    requires |changes| == |plans|
    ensures |r| == |changes| && forall i :: 0 <= i < |changes| ==> r[i] == ReplanEntry(changes[i], code, plans[i])
  {
    seq(|changes|, i requires 0 <= i < |changes| => ReplanEntry(changes[i], code, plans[i]))
  }

  /** Consumed twice without exception, the payload leaves the job otherwise than consumed once. */
  predicate TwiceDiffers(jobs: Jobs, payload: seq<Reading>, code: Code) {
    var once := Handle(jobs, payload);
    var twice := Handle(once.jobs, payload);
    !once.raised && !twice.raised && PlanOf(twice.jobs, code) != PlanOf(once.jobs, code)
  }

  /**
   The converse. Every payload that can be consumed twice without exception, and is fragile for a
   job the instance does not have, has a variant of the same shape which, consumed twice without
   exception, leaves the job otherwise than once.
   */
  lemma FragileLogCanChange(jobs: Jobs, changes: seq<Reading>, code: Code) returns (variant: seq<Reading>)
    requires code !in jobs && Fragile(Ops(changes, code))
    requires !Handle(jobs, changes).raised && !Handle(Handle(jobs, changes).jobs, changes).raised
    ensures SameShape(changes, variant, code) && TwiceDiffers(jobs, variant, code)
  {
    var ops := Ops(changes, code);
    var plans := FragileCanChange(ops);
    variant := ReplanLog(changes, code, plans);
    VariantHasShape(changes, code, plans);
    VariantRaisesAlike(jobs, jobs, changes, code, plans);
    VariantRaisesAlike(Handle(jobs, changes).jobs, Handle(jobs, variant).jobs, changes, code, plans);
    TwiceOnTheJob(jobs, variant, code);
  }

  lemma VariantEntry(r: Reading, code: Code, p: Plan)
    ensures ReplanEntry(r, code, p) == ReplanEntry(r, code, PlanIn(ReplanEntry(r, code, p).change))
    ensures OpOf(ReplanEntry(r, code, p), code) == Replan(OpOf(r, code), p)
  {
  }

  lemma VariantHasShape(changes: seq<Reading>, code: Code, plans: seq<Plan>)
    requires |changes| == |plans|
    ensures SameShape(changes, ReplanLog(changes, code, plans), code)
    ensures Ops(ReplanLog(changes, code, plans), code) == ReplanAll(Ops(changes, code), plans)
  {
    forall i | 0 <= i < |changes|
      ensures ReplanLog(changes, code, plans)[i] == ReplanEntry(changes[i], code, PlanIn(ReplanLog(changes, code, plans)[i].change))
      ensures OpOf(ReplanLog(changes, code, plans)[i], code) == Replan(OpOf(changes[i], code), plans[i])
    {
      VariantEntry(changes[i], code, plans[i]);
    }
  }

  lemma VariantStep(jobs: Jobs, jobs': Jobs, r: Reading, code: Code, p: Plan)
    requires jobs.Keys == jobs'.Keys
    ensures Raises(jobs, r.change) == Raises(jobs', ReplanEntry(r, code, p).change)
    ensures Apply(jobs, r).Keys == Apply(jobs', ReplanEntry(r, code, p)).Keys
  {
  }

  /** Whether a payload raises, and which jobs it leaves, depends on kinds and not on plans. */
  lemma {:induction false} VariantRaisesAlike(jobs: Jobs, jobs': Jobs, changes: seq<Reading>, code: Code, plans: seq<Plan>)
    requires |changes| == |plans| && jobs.Keys == jobs'.Keys
    ensures Handle(jobs, changes).raised == Handle(jobs', ReplanLog(changes, code, plans)).raised
    ensures Handle(jobs, changes).jobs.Keys == Handle(jobs', ReplanLog(changes, code, plans)).jobs.Keys
    decreases |changes|
  {
    if changes != [] {
      var variant := ReplanLog(changes, code, plans);
      VariantStep(jobs, jobs', changes[0], code, plans[0]);
      assert variant[1..] == ReplanLog(changes[1..], code, plans[1..]);
      if !Raises(jobs, changes[0].change) {
        VariantRaisesAlike(Apply(jobs, changes[0]), Apply(jobs', variant[0]), changes[1..], code, plans[1..]);
      }
    }
  }

  lemma TwiceOnTheJob(jobs: Jobs, payload: seq<Reading>, code: Code)
    requires !Handle(jobs, payload).raised && !Handle(Handle(jobs, payload).jobs, payload).raised
    requires var o, ops := PlanOf(jobs, code), Ops(payload, code); DoAll(DoAll(o, ops), ops) != DoAll(o, ops)
    ensures TwiceDiffers(jobs, payload, code)
  {
    HandledIsApplied(jobs, payload);
    var once := ApplyAll(jobs, payload);
    HandledIsApplied(once, payload);
    ProjectAll(jobs, payload, code);
    ProjectAll(once, payload, code);
  }

  lemma SameJobs(a: Jobs, b: Jobs)
    ensures a == b <==> forall code :: PlanOf(a, code) == PlanOf(b, code)
  {
    if forall code :: PlanOf(a, code) == PlanOf(b, code) {
      forall code
        ensures code in a <==> code in b
        ensures code in a && code in b ==> a[code] == b[code]
      {
        assert PlanOf(a, code) == PlanOf(b, code);
      }
      assert a.Keys == b.Keys;
    }
  }

  // ------------------------------------------------------------ the second reading sees another horizon

  /** The same entries, read at any other times. */
  predicate SameEntries(a: seq<Reading>, b: seq<Reading>) {
    |a| == |b| && forall i :: 0 <= i < |a| ==> a[i].change == b[i].change
  }

  /** Operations that differ at most in whether an update can make its job. */
  predicate SameButForTheHorizon(a: seq<Op>, b: seq<Op>) {
    |a| == |b| && forall i :: 0 <= i < |a| ==>
      b[i] == a[i] || (a[i].Write? && b[i] == MakeOrWrite(a[i].plan)) || (b[i].Write? && a[i] == MakeOrWrite(b[i].plan))
  }

  lemma OtherHorizon(a: seq<Reading>, b: seq<Reading>, code: Code)
    requires SameEntries(a, b)
    ensures SameButForTheHorizon(Ops(a, code), Ops(b, code))
  {
  }

  /** On a job that is there the horizon does not matter. */
  lemma {:induction false} HorizonIsForNewJobs(p: Plan, a: seq<Op>, b: seq<Op>)
    requires SameButForTheHorizon(a, b)
    ensures Run(p, a) == Run(p, b)
    decreases |a|
  {
    if a != [] {
      assert Redo(p, a[0]) == Redo(p, b[0]);
      HorizonIsForNewJobs(Redo(p, a[0]), a[1..], b[1..]);
    }
  }

  ghost predicate NothingCreates(ops: seq<Op>) {
    forall i :: 0 <= i < |ops| ==> !Creates(ops[i])
  }

  /**
   For one job, a second reading at another time leaves what the first left exactly when the job
   is there after the first, or nothing in the second can make it.
   */
  lemma SecondReadingOfOneJob(o: Option<Plan>, a: seq<Op>, b: seq<Op>)
    requires SameButForTheHorizon(a, b) && (o.Some? || !Fragile(a))
    ensures DoAll(DoAll(o, a), b) == DoAll(o, a) <==> DoAll(o, a).Some? || NothingCreates(b)
  {
    var once := DoAll(o, a);
    if once.Some? {
      HarmlessUnlessFragile(o, a);
      DoAllRuns(once.value, a);
      DoAllRuns(once.value, b);
      HorizonIsForNewJobs(once.value, a, b);
    } else if NothingCreates(b) {
      NothingMakes(b);
    } else {
      var i :| 0 <= i < |b| && Creates(b[i]);
      MakingIsSeen(None, b, i);
    }
  }

  // ------------------------------------------------------------ what stops a reading

  /** What the entry makes if its job is not there. */
  predicate MakesJob(r: Reading) {
    !r.change.NoCode? && Creates(OpOf(r, r.change.code))
  }

  /** A creation makes its job if it can be encoded, an update if it also starts before the horizon ends; nothing else does. */
  lemma MakesJobIff(r: Reading)
    ensures MakesJob(r) <==>
      || (r.change.CreateJob? && r.change.encoding.Encoded?)
      || (r.change.UpdateJob? && r.change.encoding.Encoded? && r.change.start.At? && r.change.start.minutes < r.horizonEnd)
  {
  }

  /** The same entries, each read with the horizon no earlier. */
  predicate ReadLater(a: seq<Reading>, b: seq<Reading>) {
    SameEntries(a, b) && forall i :: 0 <= i < |a| ==> a[i].horizonEnd <= b[i].horizonEnd
  }

  /** Reading later, and with no fewer jobs, never has fewer jobs in the end. */
  lemma {:induction false} ReadingLaterMakesNoFewer(jobs: Jobs, jobs': Jobs, a: seq<Reading>, b: seq<Reading>)
    requires ReadLater(a, b) && jobs.Keys <= jobs'.Keys
    ensures ApplyAll(jobs, a).Keys <= ApplyAll(jobs', b).Keys
    decreases |a|
  {
    if a != [] {
      var next, next' := Apply(jobs, a[0]), Apply(jobs', b[0]);
      forall code | code in next ensures code in next' {
        KeysAfter(jobs, a[0], code);
        KeysAfter(jobs', b[0], code);
        if MakesJob(a[0]) {
          MakesJobIff(a[0]);
          MakesJobIff(b[0]);
        }
      }
      ReadingLaterMakesNoFewer(next, next', a[1..], b[1..]);
    }
  }

  /** Entry i cannot be encoded, for a job that is there at the start or that an earlier entry makes. */
  predicate StopsAt(jobs: Jobs, payload: seq<Reading>, i: nat) {
    && i < |payload| && Undecodable(payload[i].change)
    && (payload[i].change.code in jobs || MadeBefore(payload, i))
  }

  predicate MadeBefore(payload: seq<Reading>, i: nat)
    requires i < |payload| && !payload[i].change.NoCode?
  {
    exists j :: 0 <= j < i && MakesJob(payload[j]) && payload[j].change.code == payload[i].change.code
  }

  /** Updates whose start cannot be compared are about jobs that are there. */
  predicate ComparedInTime(jobs: Jobs, payload: seq<Reading>) {
    forall i :: 0 <= i < |payload| && Incomparable(payload[i].change) ==> payload[i].change.code in jobs
  }

  lemma KeysAfter(jobs: Jobs, r: Reading, code: Code)
    ensures code in Apply(jobs, r) <==> code in jobs || (MakesJob(r) && r.change.code == code)
  {
  }

  lemma StopsLater(jobs: Jobs, payload: seq<Reading>, i: nat)
    requires payload != [] && i + 1 < |payload| && !Raises(jobs, payload[0].change)
    ensures StopsAt(jobs, payload, i + 1) <==> StopsAt(Apply(jobs, payload[0]), payload[1..], i)
  {
    var rest := payload[1..];
    assert rest[i] == payload[i + 1];
    if Undecodable(payload[i + 1].change) {
      KeysAfter(jobs, payload[0], payload[i + 1].change.code);
      if MadeBefore(payload, i + 1) {
        var j :| 0 <= j < i + 1 && MakesJob(payload[j]) && payload[j].change.code == payload[i + 1].change.code;
        if j > 0 { assert rest[j - 1] == payload[j]; }
      }
      if MadeBefore(rest, i) {
        var j :| 0 <= j < i && MakesJob(rest[j]) && rest[j].change.code == rest[i].change.code;
        assert payload[j + 1] == rest[j];
      }
    }
  }

  /** A reading raises exactly when some entry stops it. */
  lemma {:induction false} RaisesIff(jobs: Jobs, payload: seq<Reading>)
    requires ComparedInTime(jobs, payload)
    ensures Handle(jobs, payload).raised <==> exists i: nat :: StopsAt(jobs, payload, i)
    decreases |payload|
  {
    if payload != [] {
      if Raises(jobs, payload[0].change) {
        assert StopsAt(jobs, payload, 0);
      } else {
        var next, rest := Apply(jobs, payload[0]), payload[1..];
        forall i | 0 <= i < |rest| && Incomparable(rest[i].change) ensures rest[i].change.code in next {
          assert rest[i] == payload[i + 1];
          KeysAfter(jobs, payload[0], rest[i].change.code);
        }
        RaisesIff(next, rest);
        assert !StopsAt(jobs, payload, 0);
        if exists i: nat :: StopsAt(jobs, payload, i) {
          var i: nat :| StopsAt(jobs, payload, i);
          StopsLater(jobs, payload, i - 1);
          assert StopsAt(next, rest, i - 1);
        }
        if exists i: nat :: StopsAt(next, rest, i) {
          var i: nat :| StopsAt(next, rest, i);
          StopsLater(jobs, payload, i);
          assert StopsAt(jobs, payload, i + 1);
        }
      }
    }
  }

  lemma {:induction false} JobsStay(jobs: Jobs, payload: seq<Reading>, code: Code)
    requires code in jobs
    ensures code in Handle(jobs, payload).jobs
    decreases |payload|
  {
    if payload != [] && !Raises(jobs, payload[0].change) { JobsStay(Apply(jobs, payload[0]), payload[1..], code); }
  }

  /** A first reading without exception has the job of every update whose start cannot be compared. */
  lemma {:induction false} FirstReadingCompares(jobs: Jobs, payload: seq<Reading>, i: nat)
    requires !Handle(jobs, payload).raised && i < |payload| && Incomparable(payload[i].change)
    ensures payload[i].change.code in Handle(jobs, payload).jobs
    decreases |payload|
  {
    if i == 0 {
      JobsStay(jobs, payload, payload[0].change.code);
    } else {
      FirstReadingCompares(Apply(jobs, payload[0]), payload[1..], i - 1);
    }
  }

  /** The second reading of entries once read without exception raises exactly when some entry stops it. */
  lemma SecondReadingStopsIff(jobs: Jobs, a: seq<Reading>, b: seq<Reading>)
    requires SameEntries(a, b) && !Handle(jobs, a).raised
    ensures var once := Handle(jobs, a).jobs;
      Handle(once, b).raised <==> exists i: nat :: StopsAt(once, b, i)
  {
    var once := Handle(jobs, a).jobs;
    forall i | 0 <= i < |b| && Incomparable(b[i].change) ensures b[i].change.code in once {
      FirstReadingCompares(jobs, a, i);
    }
    RaisesIff(once, b);
  }

  /** Every entry that can make a job is about a job that is there: no update has come within the horizon for one that is not. */
  predicate NothingNew(jobs: Jobs, b: seq<Reading>) {
    forall i :: 0 <= i < |b| && MakesJob(b[i]) ==> b[i].change.code in jobs
  }

  lemma NothingNewForOne(jobs: Jobs, b: seq<Reading>, code: Code)
    requires NothingNew(jobs, b) && code !in jobs
    ensures NothingCreates(Ops(b, code))
  {
    forall i | 0 <= i < |b| ensures !Creates(OpOf(b[i], code)) {
      if Creates(OpOf(b[i], code)) { assert MakesJob(b[i]); }
    }
  }

  /** Where the second reading does not stop, it leaves the jobs of the first exactly when it finds nothing new. */
  lemma SecondReadingChangesNothingIff(jobs: Jobs, a: seq<Reading>, b: seq<Reading>)
    requires SameEntries(a, b) && !Handle(jobs, a).raised && !Handle(Handle(jobs, a).jobs, b).raised
    requires forall code :: code in jobs || !Fragile(Ops(a, code))
    ensures var once := Handle(jobs, a).jobs;
      Handle(once, b).jobs == once <==> NothingNew(once, b)
  {
    HandledIsApplied(jobs, a);
    var once := ApplyAll(jobs, a);
    HandledIsApplied(once, b);
    forall code
      ensures PlanOf(ApplyAll(once, b), code) == PlanOf(once, code) <==> code in once || NothingCreates(Ops(b, code))
    {
      ProjectAll(jobs, a, code);
      ProjectAll(once, b, code);
      OtherHorizon(a, b, code);
      SecondReadingOfOneJob(PlanOf(jobs, code), Ops(a, code), Ops(b, code));
    }
    SameJobs(ApplyAll(once, b), once);
    if NothingNew(once, b) {
      forall code ensures PlanOf(ApplyAll(once, b), code) == PlanOf(once, code) {
        if code !in once { NothingNewForOne(once, b, code); }
      }
    } else {
      var i :| 0 <= i < |b| && MakesJob(b[i]) && b[i].change.code !in once;
      var code := b[i].change.code;
      assert Creates(Ops(b, code)[i]);
      assert PlanOf(ApplyAll(once, b), code) != PlanOf(once, code);
    }
  }

  // ------------------------------------------------------------ catching up

  lemma VisibleSameEntries(instCode: Code, log: seq<Message>, first: Clock, second: Clock, k: nat, m: nat)
    requires k <= m <= |log|
    ensures SameEntries(Visible(instCode, ReceivedBy(first, log)[k..m]), Visible(instCode, ReceivedBy(second, log)[k..m]))
    decreases m - k
  {
    if k < m {
      var a, b := ReceivedBy(first, log), ReceivedBy(second, log);
      VisibleSameEntries(instCode, log, first, second, k + 1, m);
      VisibleCons(instCode, a[k], a[k + 1..m]);
      VisibleCons(instCode, b[k], b[k + 1..m]);
      assert a[k..m] == [a[k]] + a[k + 1..m] && b[k..m] == [b[k]] + b[k + 1..m];
      SameEntriesConcat(if a[k].source == instCode then [] else a[k].payload, if b[k].source == instCode then [] else b[k].payload,
                        Visible(instCode, a[k + 1..m]), Visible(instCode, b[k + 1..m]));
    }
  }

  lemma SameEntriesConcat(a: seq<Reading>, b: seq<Reading>, a': seq<Reading>, b': seq<Reading>)
    requires SameEntries(a, b) && SameEntries(a', b')
    ensures SameEntries(a + a', b + b')
  {
  }

  lemma ReadConcat(jobs: Jobs, instCode: Code, a: seq<Received>, b: seq<Received>)
    ensures Read(jobs, instCode, a + b) ==
      if Read(jobs, instCode, a).raised then Read(jobs, instCode, a) else Read(Read(jobs, instCode, a).jobs, instCode, b)
  {
    ReadIsHandle(jobs, instCode, a + b);
    ReadIsHandle(jobs, instCode, a);
    VisibleConcat(instCode, a, b);
    HandleConcat(jobs, Visible(instCode, a), Visible(instCode, b));
    ReadIsHandle(Read(jobs, instCode, a).jobs, instCode, b);
  }

  lemma FirstReading(jobs: Jobs, instCode: Code, log: seq<Received>, k: nat, m: nat)
    requires k <= m <= |log| && !Read(jobs, instCode, log[..m]).raised
    ensures var h := Handle(Read(jobs, instCode, log[..k]).jobs, Visible(instCode, log[k..m]));
      !Read(jobs, instCode, log[..k]).raised && !h.raised && h.jobs == Read(jobs, instCode, log[..m]).jobs
  {
    assert log[..m] == log[..k] + log[k..m];
    ReadConcat(jobs, instCode, log[..k], log[k..m]);
    ReadIsHandle(Read(jobs, instCode, log[..k]).jobs, instCode, log[k..m]);
  }

  /** The two readings of one stretch. */
  lemma SecondReadingOfAStretch(before: Jobs, a: seq<Reading>, b: seq<Reading>)
    requires SameEntries(a, b) && !Handle(before, a).raised
    ensures var now := Handle(before, a).jobs;
      && (Handle(now, b).raised <==> exists i: nat :: StopsAt(now, b, i))
      && (!Handle(now, b).raised && (forall code :: code in before || !Fragile(Ops(a, code))) ==>
            (Handle(now, b).jobs == now <==> NothingNew(now, b)))
  {
    SecondReadingStopsIff(before, a, b);
    if !Handle(Handle(before, a).jobs, b).raised && (forall code :: code in before || !Fragile(Ops(a, code))) {
      SecondReadingChangesNothingIff(before, a, b);
    }
  }

  lemma GoesOn(now: Jobs, instCode: Code, log: seq<Received>, k: nat, m: nat)
    requires k <= m <= |log| && Read(now, instCode, log[k..m]) == Handled(now, false)
    ensures Read(now, instCode, log[k..]) == Read(now, instCode, log[m..])
  {
    ReadConcat(now, instCode, log[k..m], log[m..]);
    assert log[k..] == log[k..m] + log[m..];
  }

  /**
   Reading again. An instance has read the log up to m without exception, looking at the horizon
   as one clock says, and later starts reading at any earlier k, looking at it as another says.
   The second pass is stopped before m exactly by an entry that cannot be encoded, for a job that
   is there by then. If nothing stops it, and no job that was lacking at k has a fragile stretch
   there, it has changed no job by m exactly when no entry it sees can make a job that is still
   lacking; then it goes on from m as if it had started there: same jobs, same exceptions.
   */
  lemma RereadingIsHarmlessIff(jobs: Jobs, instCode: Code, log: seq<Message>, first: Clock, second: Clock, k: nat, m: nat)
    requires k <= m <= |log| && !Read(jobs, instCode, ReceivedBy(first, log)[..m]).raised
    ensures var was, is_ := ReceivedBy(first, log), ReceivedBy(second, log);
      var before, now := Read(jobs, instCode, was[..k]).jobs, Read(jobs, instCode, was[..m]).jobs;
      var a, b := Visible(instCode, was[k..m]), Visible(instCode, is_[k..m]);
      var again := Read(now, instCode, is_[k..m]);
      && (again.raised <==> exists i: nat :: StopsAt(now, b, i))
      && (!again.raised && (forall code :: code in before || !Fragile(Ops(a, code))) ==>
            && (again.jobs == now <==> NothingNew(now, b))
            && (NothingNew(now, b) ==> Read(now, instCode, is_[k..]) == Read(now, instCode, is_[m..])))
  {
    var was, is_ := ReceivedBy(first, log), ReceivedBy(second, log);
    var a, b := Visible(instCode, was[k..m]), Visible(instCode, is_[k..m]);
    FirstReading(jobs, instCode, was, k, m);
    var before := Read(jobs, instCode, was[..k]).jobs;
    var now := Handle(before, a).jobs;
    VisibleSameEntries(instCode, log, first, second, k, m);
    SecondReadingOfAStretch(before, a, b);
    ReadIsHandle(now, instCode, is_[k..m]);
    if Read(now, instCode, is_[k..m]) == Handled(now, false) { GoesOn(now, instCode, is_, k, m); }
  }

  // ------------------------------------------------------------ a condition on the whole log

  /** No operation writes the job before the first one that makes it, if any does. */
  ghost predicate MadeFirst(ops: seq<Op>) {
    forall i, j :: 0 <= i < j < |ops| && Writes(ops[i]) && Creates(ops[j]) ==> exists h :: 0 <= h <= i && Creates(ops[h])
  }

  /** In such a log no stretch is fragile for a job that is not there when the stretch begins. */
  lemma MadeFirstIsRobust(before: seq<Op>, again: seq<Op>)
    requires MadeFirst(before + again) && DoAll(None, before).None?
    ensures !Fragile(again)
  {
    var all := before + again;
    if Fragile(again) {
      var j: nat :| FragileAt(again, j);
      var i := LastWrite(again[..j]);
      assert all[|before| + i] == again[i] && all[|before| + j] == again[j];
      assert forall n :: |before| <= n < |before| + j ==> all[n] == again[n - |before|];
      var h :| 0 <= h <= |before| + i && Creates(all[h]);
      if h < |before| { MakingIsSeen(None, before, h); }
      assert false;
    }
  }

  lemma {:induction false} MakingIsSeen(o: Option<Plan>, ops: seq<Op>, h: nat)
    requires o.Some? || (h < |ops| && Creates(ops[h]))
    ensures DoAll(o, ops).Some?
    decreases |ops|
  {
    if ops != [] {
      MakingIsSeen(Do(o, ops[0]), ops[1..], if h > 0 then h - 1 else 0);
    }
  }

  /**
   If in the first reading every job is made before it is written, and everything can be encoded
   and compared, then a later reading from any k changes no job that is there, and changes
   nothing at all exactly when no update has come within the horizon for a job still lacking.
   */
  lemma OrderlyLogsCanBeReread(jobs: Jobs, instCode: Code, log: seq<Message>, first: Clock, second: Clock, k: nat, m: nat)
    requires k <= m <= |log|
    requires var seen := Visible(instCode, ReceivedBy(first, log)[..m]);
      NeverRaises(seen) && forall code :: code in jobs || MadeFirst(Ops(seen, code))
    ensures var was, is_ := ReceivedBy(first, log), ReceivedBy(second, log);
      var now, b := Read(jobs, instCode, was[..m]).jobs, Visible(instCode, is_[k..m]);
      var again := Read(now, instCode, is_[k..m]);
      && !Read(jobs, instCode, was[..m]).raised && !again.raised
      && (again.jobs == now <==> NothingNew(now, b))
      && (NothingNew(now, b) ==> Read(now, instCode, is_[k..]) == Read(now, instCode, is_[m..]))
  {
    var was, is_ := ReceivedBy(first, log), ReceivedBy(second, log);
    var c, a, b := Visible(instCode, was[..k]), Visible(instCode, was[k..m]), Visible(instCode, is_[k..m]);
    assert was[..m] == was[..k] + was[k..m];
    VisibleConcat(instCode, was[..k], was[k..m]);
    DecodableNeverRaises(jobs, c + a);
    ReadIsHandle(jobs, instCode, was[..m]);
    DecodableNeverRaises(jobs, c);
    ReadIsHandle(jobs, instCode, was[..k]);
    forall code ensures code in ApplyAll(jobs, c) || !Fragile(Ops(a, code)) {
      OrderlyStretch(jobs, c, a, code);
    }
    VisibleSameEntries(instCode, log, first, second, k, m);
    SameEntriesNeverRaise(a, b);
    var now := Read(jobs, instCode, was[..m]).jobs;
    DecodableNeverRaises(now, b);
    ReadIsHandle(now, instCode, is_[k..m]);
    RereadingIsHarmlessIff(jobs, instCode, log, first, second, k, m);
  }

  lemma SameEntriesNeverRaise(a: seq<Reading>, b: seq<Reading>)
    requires SameEntries(a, b) && NeverRaises(a)
    ensures NeverRaises(b)
  {
    forall r | r in b ensures !Undecodable(r.change) && !Incomparable(r.change) {
      var i :| 0 <= i < |b| && b[i] == r;
      assert a[i] in a;
    }
  }

  lemma OrderlyStretch(jobs: Jobs, a: seq<Reading>, b: seq<Reading>, code: Code)
    requires code in jobs || MadeFirst(Ops(a + b, code))
    ensures code in ApplyAll(jobs, a) || !Fragile(Ops(b, code))
  {
    ProjectAll(jobs, a, code);
    assert Ops(a + b, code) == Ops(a, code) + Ops(b, code);
    if code in jobs {
      MakingIsSeen(PlanOf(jobs, code), Ops(a, code), 0);
    } else if DoAll(None, Ops(a, code)).None? {
      MadeFirstIsRobust(Ops(a, code), Ops(b, code));
    }
  }
}
