/**
 What a log does to one job: whose values win, and which sequences of entries may be done twice.
 */
module JobHistory {
  import opened Common
  import opened PlanningEnv

  // ------------------------------------------------------------ one job at a time

  /** What an entry means for one job. */
  datatype Op =
    | Skip
    | Make(plan: Plan)         // makes the job if it is not there
    | Write(plan: Plan)        // reschedules the job if it is there
    | MakeOrWrite(plan: Plan)  // makes it or reschedules it
    | Refresh(plan: Plan)      // overwrites the job if it is there

  function OpOf(r: Reading, code: Code): Op {
    if r.change.NoCode? || r.change.code != code then Skip
    else
      match r.change
      case CreateJob(_, e) => if e.Encoded? then Make(e.plan) else Skip
      case UpdateJob(_, e, start) =>
        if !e.Encoded? then Skip else if WithinHorizon(start, r.horizonEnd) then MakeOrWrite(e.plan) else Write(e.plan)
      case RescheduleJob(_, e) => if e.Encoded? then Write(e.plan) else Skip
      case RefreshJob(_, p) => Refresh(p)
  }

  /** What the entries, as they are read, mean for one job. */
  function Ops(changes: seq<Reading>, code: Code): (r: seq<Op>)
    ensures |r| == |changes| && forall i :: 0 <= i < |changes| ==> r[i] == OpOf(changes[i], code)
  {
    seq(|changes|, i requires 0 <= i < |changes| => OpOf(changes[i], code))
  }

  predicate Creates(op: Op) {
    op.Make? || op.MakeOrWrite?
  }

  predicate Writes(op: Op) {
    op.Write? || op.MakeOrWrite? || op.Refresh?
  }

  /** An operation on a job that is there. */
  function Redo(p: Plan, op: Op): Plan {
    match op
    case Write(q) => Reschedule(p, q)
    case MakeOrWrite(q) => Reschedule(p, q)
    case Refresh(q) => q
    case _ => p
  }

  function Do(o: Option<Plan>, op: Op): Option<Plan> {
    if o.Some? then Some(Redo(o.value, op))
    else if Creates(op) then Some(op.plan)
    else None
  }

  function DoAll(o: Option<Plan>, ops: seq<Op>): (r: Option<Plan>)
    decreases |ops|
  {
    if ops == [] then o else DoAll(Do(o, ops[0]), ops[1..])
  }

  function PlanOf(jobs: Jobs, code: Code): Option<Plan> {
    if code in jobs then Some(jobs[code]) else None
  }

  /** The fold over all jobs is, for each job, a fold over that job alone. */
  lemma {:induction false} ProjectAll(jobs: Jobs, changes: seq<Reading>, code: Code)
    ensures PlanOf(ApplyAll(jobs, changes), code) == DoAll(PlanOf(jobs, code), Ops(changes, code))
    decreases |changes|
  {
    if changes != [] {
      var next := Apply(jobs, changes[0]);
      assert PlanOf(next, code) == Do(PlanOf(jobs, code), OpOf(changes[0], code));
      ProjectAll(next, changes[1..], code);
      assert Ops(changes, code)[1..] == Ops(changes[1..], code);
    }
  }

  lemma {:induction false} DoAllConcat(o: Option<Plan>, a: seq<Op>, b: seq<Op>)
    ensures DoAll(o, a + b) == DoAll(DoAll(o, a), b)
    decreases |a|
  {
    if a == [] {
      assert a + b == b;
    } else {
      DoAllConcat(Do(o, a[0]), a[1..], b);
      assert (a + b)[1..] == a[1..] + b;
    }
  }

  // ------------------------------------------------------------ last writer wins

  /** An entry that took effect; `whole` when it replaces the whole plan whatever was there. */
  datatype Effect = Effect(plan: Plan, whole: bool)

  function Noted(h: seq<Effect>, op: Op): (r: seq<Effect>) {
    if h == [] then (if Creates(op) then [Effect(op.plan, true)] else [])
    else if Writes(op) then h + [Effect(op.plan, op.Refresh?)]
    else h
  }

  /** The effects on one job in order, behind those it had. */
  function History(h: seq<Effect>, ops: seq<Op>): (r: seq<Effect>)
    decreases |ops|
  {
    if ops == [] then h else History(Noted(h, ops[0]), ops[1..])
  }

  /** Entry m brings a different triple than the entry before it, or replaces the plan outright. */
  predicate Alters(h: seq<Effect>, m: nat)
    requires m < |h|
  {
    m == 0 || h[m].whole || h[m].plan.triple != h[m - 1].plan.triple
  }

  ghost predicate LastAltering(h: seq<Effect>, m: nat) {
    m < |h| && Alters(h, m) && forall i :: m < i < |h| ==> !Alters(h, i)
  }

  /** The three fields are those of the last effect, the duration that of the last one that altered them. */
  ghost predicate Explains(h: seq<Effect>, r: Option<Plan>) {
    && (r.None? <==> h == [])
    && (h != [] ==> exists m: nat :: LastAltering(h, m))
    && (forall m: nat :: LastAltering(h, m) ==> r == Some(Plan(Last(h).plan.triple, h[m].plan.duration)))
  }

  lemma FirstEffect(p: Plan)
    ensures Explains([Effect(p, true)], Some(p))
  {
    assert LastAltering([Effect(p, true)], 0);
  }

  /** Which entries alter does not depend on later ones. */
  lemma AltersSnoc(h: seq<Effect>, e: Effect, m: nat)
    requires m < |h|
    ensures Alters(h + [e], m) == Alters(h, m)
  {
  }

  /** The last altering entry after one more effect: that one if it alters, else the same as before. */
  lemma LastAlteringSnoc(h: seq<Effect>, e: Effect, m: nat)
    requires h != []
    ensures LastAltering(h + [e], m) <==>
      if Alters(h + [e], |h|) then m == |h| else LastAltering(h, m)
  {
    forall i: nat | i < |h| ensures Alters(h + [e], i) == Alters(h, i) { AltersSnoc(h, e, i); }
    if LastAltering(h, m) && !Alters(h + [e], |h|) {
      assert forall i :: m < i < |h| + 1 ==> !Alters(h + [e], i);
    }
  }

  lemma OneMoreEffect(h: seq<Effect>, o: Option<Plan>, op: Op)
    requires Explains(h, o)
    ensures Explains(Noted(h, op), Do(o, op))
  {
    if h == [] {
      if Creates(op) { FirstEffect(op.plan); }
    } else if Writes(op) {
      AnotherEffect(h, o.value, Effect(op.plan, op.Refresh?));
    }
  }

  lemma AnotherEffect(h: seq<Effect>, p: Plan, e: Effect)
    requires h != [] && Explains(h, Some(p))
    ensures Explains(h + [e], Some(if e.whole then e.plan else Reschedule(p, e.plan)))
  {
    var g := h + [e];
    var was: nat :| LastAltering(h, was);
    LastAlteringSnoc(h, e, was);
    LastAlteringSnoc(h, e, |h|);
    assert Last(g) == e && p.triple == Last(h).plan.triple;
    assert LastAltering(g, if Alters(g, |h|) then |h| else was);
    forall m: nat | LastAltering(g, m)
      ensures Some(if e.whole then e.plan else Reschedule(p, e.plan)) == Some(Plan(Last(g).plan.triple, g[m].plan.duration))
    {
      LastAlteringSnoc(h, e, m);
    }
  }

  /**
   After any entries that take effect: the status, start and workers of a job are those of the
   last one that counts for it, and its duration is that of the last one that altered the three,
   refreshed or created it.
   */
  lemma {:induction false} LastWriterWins(h: seq<Effect>, o: Option<Plan>, ops: seq<Op>)
    requires Explains(h, o)
    ensures Explains(History(h, ops), DoAll(o, ops))
    decreases |ops|
  {
    if ops != [] {
      OneMoreEffect(h, o, ops[0]);
      LastWriterWins(Noted(h, ops[0]), Do(o, ops[0]), ops[1..]);
    }
  }

  /** What a job starts with is its first effect. */
  function Beginning(o: Option<Plan>): seq<Effect> {
    if o.Some? then [Effect(o.value, true)] else []
  }

  lemma LastWriterOf(jobs: Jobs, changes: seq<Reading>, code: Code)
    ensures Explains(History(Beginning(PlanOf(jobs, code)), Ops(changes, code)), PlanOf(ApplyAll(jobs, changes), code))
  {
    var o := PlanOf(jobs, code);
    if o.Some? { FirstEffect(o.value); }
    LastWriterWins(Beginning(o), o, Ops(changes, code));
    ProjectAll(jobs, changes, code);
  }

  /** After one pass over any log, the entries that count are the visible ones before the first that raises. */
  lemma LastWriterOfAPass(jobs: Jobs, instCode: Code, log: seq<Received>, code: Code)
    ensures Explains(History(Beginning(PlanOf(jobs, code)), Ops(Effective(jobs, Visible(instCode, log)), code)),
                     PlanOf(Read(jobs, instCode, log).jobs, code))
  {
    var seen := Visible(instCode, log);
    ReadIsHandle(jobs, instCode, log);
    HandledIsEffective(jobs, seen);
    LastWriterOf(jobs, Effective(jobs, seen), code);
  }

  /** After all passes, they are those of each visible payload before its raising one. */
  lemma LastWriterOfALog(jobs: Jobs, instCode: Code, log: seq<Received>, code: Code)
    ensures Explains(History(Beginning(PlanOf(jobs, code)), Ops(DrainedEntries(jobs, instCode, log), code)),
                     PlanOf(Drain(jobs, instCode, log), code))
  {
    DrainedIsEffective(jobs, instCode, log);
    LastWriterOf(jobs, DrainedEntries(jobs, instCode, log), code);
  }

  // ------------------------------------------------------------ a job that is there

  function Run(p: Plan, ops: seq<Op>): (r: Plan)
    decreases |ops|
  {
    if ops == [] then p else Run(Redo(p, ops[0]), ops[1..])
  }

  function WriteCount(ops: seq<Op>): (n: nat)
    decreases |ops|
  {
    if ops == [] then 0 else (if Writes(ops[0]) then 1 else 0) + WriteCount(ops[1..])
  }

  predicate HasRefresh(ops: seq<Op>) {
    exists i :: 0 <= i < |ops| && ops[i].Refresh?
  }

  lemma {:induction false} DoAllRuns(p: Plan, ops: seq<Op>)
    ensures DoAll(Some(p), ops) == Some(Run(p, ops))
    decreases |ops|
  {
    if ops != [] { DoAllRuns(Redo(p, ops[0]), ops[1..]); }
  }

  lemma {:induction false} RunConcat(p: Plan, a: seq<Op>, b: seq<Op>)
    ensures Run(p, a + b) == Run(Run(p, a), b)
    decreases |a|
  {
    if a == [] {
      assert a + b == b;
    } else {
      RunConcat(Redo(p, a[0]), a[1..], b);
      assert (a + b)[1..] == a[1..] + b;
    }
  }

  lemma {:induction false} NoWrites(p: Plan, ops: seq<Op>)
    requires WriteCount(ops) == 0
    ensures Run(p, ops) == p
    decreases |ops|
  {
    if ops != [] { NoWrites(p, ops[1..]); }
  }

  /** Equal triples stay equal; and once a triple has changed, nothing tells the two plans apart. */
  lemma {:induction false} TriplesAgree(p: Plan, q: Plan, ops: seq<Op>)
    requires p.triple == q.triple
    ensures Run(p, ops).triple == Run(q, ops).triple
    ensures Run(p, ops).triple != p.triple ==> Run(p, ops) == Run(q, ops)
    decreases |ops|
  {
    if ops != [] { TriplesAgree(Redo(p, ops[0]), Redo(q, ops[0]), ops[1..]); }
  }

  lemma {:induction false} WritesDecideTheTriple(p: Plan, q: Plan, ops: seq<Op>)
    requires WriteCount(ops) > 0
    ensures Run(p, ops).triple == Run(q, ops).triple
    decreases |ops|
  {
    if Writes(ops[0]) {
      TriplesAgree(Redo(p, ops[0]), Redo(q, ops[0]), ops[1..]);
    } else {
      WritesDecideTheTriple(p, q, ops[1..]);
    }
  }

  lemma {:induction false} RefreshForgets(p: Plan, q: Plan, ops: seq<Op>)
    requires HasRefresh(ops)
    ensures Run(p, ops) == Run(q, ops)
    decreases |ops|
  {
    if !ops[0].Refresh? {
      var i :| 0 <= i < |ops| && ops[i].Refresh?;
      assert ops[1..][i - 1].Refresh?;
      RefreshForgets(Redo(p, ops[0]), Redo(q, ops[0]), ops[1..]);
    }
  }

  lemma {:induction false} WriteCountSnoc(ops: seq<Op>, op: Op)
    ensures WriteCount(ops + [op]) == WriteCount(ops) + (if Writes(op) then 1 else 0)
    decreases |ops|
  {
    if ops != [] {
      WriteCountSnoc(ops[1..], op);
      assert (ops + [op])[1..] == ops[1..] + [op];
    }
  }

  lemma RunSnoc(p: Plan, ops: seq<Op>)
    requires ops != []
    ensures Run(p, ops) == Redo(Run(p, Init(ops)), Last(ops))
  {
    RunConcat(p, Init(ops), [Last(ops)]);
    assert ops == Init(ops) + [Last(ops)];
  }

  /** On a job that is there, a stretch of operations may be done twice. */
  lemma {:induction false} TwiceIsOnce(p: Plan, ops: seq<Op>)
    ensures Run(Run(p, ops), ops) == Run(p, ops)
    decreases |ops|
  {
    if ops != [] {
      var f := Run(p, ops);
      RunSnoc(p, ops);
      RunSnoc(f, ops);
      TwiceIsOnce(p, Init(ops));
      if WriteCount(Init(ops)) > 0 {
        WritesDecideTheTriple(f, p, Init(ops));
      } else {
        NoWrites(f, Init(ops));
      }
    }
  }

  // ------------------------------------------------------------ a job that is not there yet

  /**
   Operation j makes the job first, nothing refreshes it afterwards, and enough is written
   before: anything if j cannot write itself, else a refresh or two writes. Only kinds count,
   not plans.
   */
  predicate FragileAt(ops: seq<Op>, j: nat) {
    && j < |ops| && Creates(ops[j])
    && (forall i :: 0 <= i < j ==> !Creates(ops[i]))
    && !HasRefresh(ops[j + 1..])
    && WriteCount(ops[..j]) > 0
    && (ops[j].Make? || WriteCount(ops[..j]) >= 2 || HasRefresh(ops[..j]))
  }

  ghost predicate Fragile(ops: seq<Op>) {
    exists j: nat :: FragileAt(ops, j)
  }

  lemma {:induction false} NothingMakes(ops: seq<Op>)
    requires forall i :: 0 <= i < |ops| ==> !Creates(ops[i])
    ensures DoAll(None, ops) == None
    decreases |ops|
  {
    if ops != [] { NothingMakes(ops[1..]); }
  }

  lemma FirstCreation(ops: seq<Op>) returns (j: nat)
    ensures j <= |ops| && forall i :: 0 <= i < j ==> !Creates(ops[i])
    ensures j < |ops| ==> Creates(ops[j])
  {
    j := 0;
    while j < |ops| && !Creates(ops[j])
      invariant j <= |ops| && forall i :: 0 <= i < j ==> !Creates(ops[i])
    {
      j := j + 1;
    }
  }

  /** Reading around the first creation: once, and again. */
  lemma AroundCreation(ops: seq<Op>, j: nat)
    requires j < |ops| && Creates(ops[j]) && forall i :: 0 <= i < j ==> !Creates(ops[i])
    ensures DoAll(None, ops) == Some(Run(ops[j].plan, ops[j + 1..]))
    ensures forall p :: Run(p, ops) == Run(Redo(Run(p, ops[..j]), ops[j]), ops[j + 1..])
  {
    var pre, suf := ops[..j], ops[j + 1..];
    assert ops == pre + ([ops[j]] + suf);
    NothingMakes(pre);
    DoAllConcat(None, pre, [ops[j]] + suf);
    DoAllConcat(None, [ops[j]], suf);
    DoAllRuns(ops[j].plan, suf);
    forall p ensures Run(p, ops) == Run(Redo(Run(p, pre), ops[j]), suf) {
      RunConcat(p, pre, [ops[j]] + suf);
      RunConcat(Run(p, pre), [ops[j]], suf);
    }
  }

  /** A single write among operations that make nothing. */
  lemma {:induction false} SingleWrite(p: Plan, ops: seq<Op>) returns (q: Plan)
    requires WriteCount(ops) == 1 && !HasRefresh(ops)
    ensures Run(p, ops) == Reschedule(p, q)
    decreases |ops|
  {
    if Writes(ops[0]) {
      q := ops[0].plan;
      NoWrites(Redo(p, ops[0]), ops[1..]);
    } else {
      q := SingleWrite(p, ops[1..]);
    }
  }

  /** A write and then a creation that writes, on a job that went through the rest already. */
  lemma OneWriteThenMake(made: Plan, q: Plan, suf: seq<Op>)
    ensures var f := Run(made, suf); Run(Reschedule(Reschedule(f, q), made), suf) == f
  {
    var f := Run(made, suf);
    var x := Reschedule(f, q);
    var y := Reschedule(x, made);
    if y != made {
      if x == f {
        TwiceIsOnce(made, suf);
      } else if WriteCount(suf) == 0 {
        NoWrites(made, suf);
      } else {
        TriplesAgree(made, q, suf);
      }
    }
  }

  /** Doing a stretch twice leaves the job as doing it once, unless the job was not there and the stretch is fragile. */
  lemma HarmlessUnlessFragile(o: Option<Plan>, ops: seq<Op>)
    requires o.Some? || !Fragile(ops)
    ensures DoAll(DoAll(o, ops), ops) == DoAll(o, ops)
  {
    if o.Some? {
      DoAllRuns(o.value, ops);
      DoAllRuns(Run(o.value, ops), ops);
      TwiceIsOnce(o.value, ops);
    } else {
      var j := FirstCreation(ops);
      if j == |ops| {
        NothingMakes(ops);
      } else {
        var pre, made, suf := ops[..j], ops[j].plan, ops[j + 1..];
        var f := Run(made, suf);
        AroundCreation(ops, j);
        DoAllRuns(f, ops);
        assert !FragileAt(ops, j);
        assert Run(f, ops) == Run(Redo(Run(f, pre), ops[j]), suf);
        if HasRefresh(suf) {
          RefreshForgets(Redo(Run(f, pre), ops[j]), made, suf);
        } else if WriteCount(pre) == 0 {
          NoWrites(f, pre);
          TwiceIsOnce(made, suf);
        } else {
          var q := SingleWrite(f, pre);
          OneWriteThenMake(made, q, suf);
        }
      }
    }
  }

  // ------------------------------------------------------------ a fragile stretch can change its job

  /** The operation of the same kind with another plan. */
  function Replan(op: Op, p: Plan): Op {
    match op
    case Skip => Skip
    case Make(_) => Make(p)
    case Write(_) => Write(p)
    case MakeOrWrite(_) => MakeOrWrite(p)
    case Refresh(_) => Refresh(p)
  }

  /** Every operation that has a plan has this one. */
  predicate AllPlans(ops: seq<Op>, q: Plan) {
    forall i :: 0 <= i < |ops| ==> ops[i] == Replan(ops[i], q)
  }

  lemma {:induction false} RunOfOnePlan(p: Plan, ops: seq<Op>, q: Plan)
    requires AllPlans(ops, q)
    ensures p == q ==> Run(p, ops) == q
    ensures p.triple == q.triple && !HasRefresh(ops) ==> Run(p, ops) == p
    ensures p.triple != q.triple ==> Run(p, ops) == if WriteCount(ops) > 0 then q else p
    decreases |ops|
  {
    if ops != [] {
      RunOfOnePlan(Redo(p, ops[0]), ops[1..], q);
      assert ops[0] == Replan(ops[0], q);
    }
  }

  lemma {:induction false} LastWrite(ops: seq<Op>) returns (i: nat)
    requires WriteCount(ops) > 0
    ensures i < |ops| && Writes(ops[i]) && WriteCount(ops[i + 1..]) == 0
    ensures WriteCount(ops[..i]) == WriteCount(ops) - 1
    decreases |ops|
  {
    if WriteCount(ops[1..]) == 0 {
      i := 0;
    } else {
      var k := LastWrite(ops[1..]);
      i := k + 1;
      assert ops[1..][k + 1..] == ops[i + 1..];
      assert ops[..i][1..] == ops[1..][..k];
    }
  }

  /** Plans for the operations before i, for i, for those up to j, and for those behind j. */
  function Plans(n: nat, i: nat, j: nat, early: Plan, write: Plan, made: Plan, late: Plan): (r: seq<Plan>)
    ensures |r| == n
  {
    seq(n, k requires 0 <= k < n => if k < i then early else if k == i then write else if k <= j then made else late)
  }

  function ReplanAll(ops: seq<Op>, plans: seq<Plan>): (r: seq<Op>)
    requires |ops| == |plans|
    ensures |r| == |ops| && forall i :: 0 <= i < |ops| ==> r[i] == Replan(ops[i], plans[i])
  {
    seq(|ops|, i requires 0 <= i < |ops| => Replan(ops[i], plans[i]))
  }

  predicate SameKind(a: Op, b: Op) {
    a.Skip? == b.Skip? && a.Make? == b.Make? && a.Write? == b.Write? && a.MakeOrWrite? == b.MakeOrWrite? && a.Refresh? == b.Refresh?
  }

  predicate SameKinds(a: seq<Op>, b: seq<Op>) {
    |a| == |b| && forall i :: 0 <= i < |a| ==> SameKind(a[i], b[i])
  }

  /** Kinds decide what is written, not plans. */
  lemma {:induction false} SameCount(a: seq<Op>, b: seq<Op>)
    requires SameKinds(a, b)
    ensures WriteCount(a) == WriteCount(b)
    ensures HasRefresh(a) <==> HasRefresh(b)
    decreases |a|
  {
    if a != [] {
      assert SameKind(a[0], b[0]);
      SameCount(a[1..], b[1..]);
    }
    assert HasRefresh(a) ==> HasRefresh(b) by {
      if HasRefresh(a) {
        var i :| 0 <= i < |a| && a[i].Refresh?;
        assert SameKind(a[i], b[i]);
      }
    }
  }

  /** Running a stretch in five parts: before i, i, up to j, j, and behind j. */
  lemma RunInParts(ops: seq<Op>, i: nat, j: nat, p: Plan)
    requires i < j < |ops| && Creates(ops[j]) && WriteCount(ops[i + 1..j]) == 0
    requires forall n :: 0 <= n < j ==> !Creates(ops[n])
    ensures DoAll(None, ops) == Some(Run(ops[j].plan, ops[j + 1..]))
    ensures DoAll(Some(p), ops) == Some(Run(Redo(Redo(Run(p, ops[..i]), ops[i]), ops[j]), ops[j + 1..]))
  {
    AroundCreation(ops, j);
    assert ops[..j] == ops[..i] + ([ops[i]] + ops[i + 1..j]);
    RunConcat(p, ops[..i], [ops[i]] + ops[i + 1..j]);
    var x := Run(p, ops[..i]);
    RunConcat(x, [ops[i]], ops[i + 1..j]);
    NoWrites(Redo(x, ops[i]), ops[i + 1..j]);
    DoAllRuns(p, ops);
  }

  /** The replanned stretch has the kinds of the original, part by part, and the plans it was given. */
  lemma ReplannedParts(ops: seq<Op>, i: nat, j: nat, early: Plan, write: Plan, made: Plan, late: Plan)
    requires i < j < |ops|
    ensures var again := ReplanAll(ops, Plans(|ops|, i, j, early, write, made, late));
      && AllPlans(again[..i], early) && again[i] == Replan(ops[i], write)
      && again[j] == Replan(ops[j], made) && AllPlans(again[j + 1..], late)
      && SameKinds(ops[..i], again[..i]) && SameKinds(ops[i + 1..j], again[i + 1..j]) && SameKinds(ops[j + 1..], again[j + 1..])
      && forall n :: 0 <= n < |ops| ==> SameKind(ops[n], again[n])
  {
  }

  lemma ReplannedRuns(ops: seq<Op>, i: nat, j: nat, early: Plan, write: Plan, made: Plan, late: Plan) returns (again: seq<Op>)
    requires i < j && FragileAt(ops, j) && Writes(ops[i]) && WriteCount(ops[i + 1..j]) == 0
    requires made.triple == late.triple
    ensures again == ReplanAll(ops, Plans(|ops|, i, j, early, write, made, late))
    ensures DoAll(None, again) == Some(made)
    ensures DoAll(Some(made), again) == Some(Run(Redo(Redo(Run(made, again[..i]), Replan(ops[i], write)), Replan(ops[j], made)), again[j + 1..]))
    ensures AllPlans(again[..i], early) && AllPlans(again[j + 1..], late) && !HasRefresh(again[j + 1..])
    ensures WriteCount(again[..i]) == WriteCount(ops[..i])
  {
    again := ReplanAll(ops, Plans(|ops|, i, j, early, write, made, late));
    ReplannedParts(ops, i, j, early, write, made, late);
    SameCount(ops[..i], again[..i]);
    SameCount(ops[i + 1..j], again[i + 1..j]);
    SameCount(ops[j + 1..], again[j + 1..]);
    assert forall n :: 0 <= n < j ==> SameKind(ops[n], again[n]);
    RunInParts(again, i, j, made);
    RunOfOnePlan(made, again[j + 1..], late);
  }

  /** Four plans that differ in duration, the second in its triple as well. */
  function Sample(n: nat): Plan {
    Plan(Triple(if n == 1 then Planned else Unplanned, 0, []), n)
  }

  /** Whatever the kinds, a fragile stretch has plans with which a second reading changes the job. */
  lemma FragileCanChange(ops: seq<Op>) returns (plans: seq<Plan>)
    requires Fragile(ops)
    ensures |plans| == |ops|
    ensures DoAll(DoAll(None, ReplanAll(ops, plans)), ReplanAll(ops, plans)) != DoAll(None, ReplanAll(ops, plans))
  {
    var j: nat :| FragileAt(ops, j);
    var i := LastWrite(ops[..j]);
    assert ops[..j][i + 1..] == ops[i + 1..j] && ops[..j][..i] == ops[..i];
    if ops[j].Make? {
      plans := Plans(|ops|, i, j, Sample(0), Sample(1), Sample(0), Sample(2));
      var again := ReplannedRuns(ops, i, j, Sample(0), Sample(1), Sample(0), Sample(2));
      RunOfOnePlan(Sample(0), again[..i], Sample(0));
      RunOfOnePlan(Sample(1), again[j + 1..], Sample(2));
    } else {
      plans := Plans(|ops|, i, j, Sample(1), Sample(3), Sample(0), Sample(0));
      var again := ReplannedRuns(ops, i, j, Sample(1), Sample(3), Sample(0), Sample(0));
      RunOfOnePlan(Sample(0), again[..i], Sample(1));
      RunOfOnePlan(Sample(3), again[j + 1..], Sample(0));
      if !ops[i].Refresh? { EarlierWrite(ops, i, j); }
    }
  }

  lemma EarlierWrite(ops: seq<Op>, i: nat, j: nat)
    requires i < j <= |ops| && !ops[i].Refresh? && WriteCount(ops[i + 1..j]) == 0
    requires WriteCount(ops[..i]) == WriteCount(ops[..j]) - 1
    requires WriteCount(ops[..j]) >= 2 || HasRefresh(ops[..j])
    ensures WriteCount(ops[..i]) > 0
  {
    if WriteCount(ops[..j]) < 2 {
      var n :| 0 <= n < j && ops[..j][n].Refresh?;
      if n < i {
        CountsAWrite(ops[..i], n);
      } else {
        CountsAWrite(ops[i + 1..j], n - i - 1);
      }
    }
  }

  lemma {:induction false} CountsAWrite(ops: seq<Op>, n: nat)
    requires n < |ops| && Writes(ops[n])
    ensures WriteCount(ops) > 0
    decreases |ops|
  {
    if n > 0 { CountsAWrite(ops[1..], n - 1); }
  }
}
