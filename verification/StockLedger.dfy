/**
 The stock ledger as jobs drive it: creating a replenishment job moves stock, and updating a job
 to finished through one of the two update endpoints deducts its stored items, once.
 */
module StockLedger {
  import opened Common
  import opened StockRows

  datatype Status = Unplanned | InPlanning | Planned | Cancelled | Finished

  /** A stored job; `lines` is the item list of its form data, if the form has one. */
  datatype Job = Job(status: Status, lines: Option<seq<ItemLine>>)

  /** What is committed. */
  datatype State = State(rows: Rows, jobs: map<Code, Job>)

  /**
   Whether something else in a request raises: Early is before the commit of a creation, and for
   an update after the commit of the deduction and before that of the job; Late is behind all
   commits, where only the answer to the caller is lost.
   */
  datatype Fault = NoFault | Early | Late

  /** A request to an endpoint. */
  datatype Request =
    | Create(code: Code, status: Status, lines: Option<seq<ItemLine>>, replenish: bool, depot: Option<Code>, org: int, fault: Fault)
    | Update(code: Code, org: int, newStatus: Option<Status>, newLines: Option<Option<seq<ItemLine>>>, fault: Fault)

  /** A committed deduction for one job. */
  datatype Deduction = Deduction(job: Code, items: seq<Item>, org: int)

  datatype Outcome = Outcome(state: State, deductions: seq<Deduction>)

  function Requested(job: Job): seq<ItemLine> {
    if job.lines.Some? then job.lines.value else []
  }

  function Updated(job: Job, r: Request): Job
    requires r.Update?
  {
    Job(if r.newStatus.Some? then r.newStatus.value else job.status,
        if r.newLines.Some? then r.newLines.value else job.lines)
  }

  /** The items a job's lines ask for and the rows after deducting them from the default depot. */
  function Deducted(rows: Rows, lines: seq<ItemLine>, depot: Option<Code>, org: int): (r: Option<(Rows, seq<Item>)>) {
    if lines == [] then Some((rows, []))
    else
      match ItemDict(lines)
      case None => None
      case Some(items) =>
        if depot.None? then None
        else
          match Finish(rows, items, depot.value, org)
          case None => None
          case Some(rows') => Some((rows', items))
  }

  /** What a request does to the committed state, and what it deducts. */
  function Step(depot: Option<Code>, s: State, r: Request): (o: Outcome) {
    match r
    case Create(code, status, lines, replenish, from, org, fault) =>
      if code in s.jobs || fault.Early? then Outcome(s, [])
      else if !replenish then Outcome(s.(jobs := s.jobs[code := Job(status, lines)]), [])
      else if lines.None? || from.None? then Outcome(s, [])
      else (
        match Replenish(s.rows, lines.value, from.value, org)
        case None => Outcome(s, [])
        case Some(rows) => Outcome(State(rows, s.jobs[code := Job(status, lines)]), []))
    case Update(code, org, newStatus, newLines, fault) =>
      if code !in s.jobs || s.jobs[code].status == Finished then Outcome(s, [])
      else if newStatus != Some(Finished) then
        Outcome(if fault.Early? then s else s.(jobs := s.jobs[code := Updated(s.jobs[code], r)]), [])
      else if s.jobs[code].status == Unplanned then Outcome(s, [])
      else
        match Deducted(s.rows, Requested(s.jobs[code]), depot, org)
        case None => Outcome(s, [])
        case Some((rows, items)) =>
          Outcome(State(rows, if fault.Early? then s.jobs else s.jobs[code := Updated(s.jobs[code], r)]), [Deduction(code, items, org)])
  }

  /** A run of requests. */
  function Exec(depot: Option<Code>, s: State, requests: seq<Request>): (o: Outcome) {
    if requests == [] then Outcome(s, [])
    else
      var before := Exec(depot, s, Init(requests));
      var last := Step(depot, before.state, Last(requests));
      Outcome(last.state, before.deductions + last.deductions)
  }

  // ------------------------------------------------------------ conservation

  /** What one deduction takes from a row. */
  function TakenBy(d: Deduction, depot: Option<Code>, key: Key): real {
    if depot == Some(key.depot) && key.org == d.org then QtyOf(d.items, key.item) else 0.0
  }

  function Taken(ds: seq<Deduction>, depot: Option<Code>, key: Key): (q: real) {
    if ds == [] then 0.0 else Taken(Init(ds), depot, key) + TakenBy(Last(ds), depot, key)
  }

  lemma DeductedTakes(rows: Rows, lines: seq<ItemLine>, depot: Option<Code>, org: int, code: Code, key: Key)
    requires Deducted(rows, lines, depot, org).Some? && key in rows
    ensures key in Deducted(rows, lines, depot, org).value.0
    ensures Level(Deducted(rows, lines, depot, org).value.0[key])
         == Level(rows[key]) - TakenBy(Deduction(code, Deducted(rows, lines, depot, org).value.1, org), depot, key)
    ensures NonNegative(rows[key]) ==> NonNegative(Deducted(rows, lines, depot, org).value.0[key])
  {
    if lines != [] {
      DictIsLastLine(lines, key.item);
      FinishTakes(rows, ItemDict(lines).value, depot.value, org, key);
    }
  }

  lemma StepConserves(depot: Option<Code>, s: State, r: Request, key: Key)
    requires key in s.rows
    ensures var o := Step(depot, s, r);
      key in o.state.rows && Level(o.state.rows[key]) == Level(s.rows[key]) - Taken(o.deductions, depot, key)
  {
    var o := Step(depot, s, r);
    if r.Create? {
      if o.state != s && r.replenish {
        ReplenishMoves(s.rows, r.lines.value, r.depot.value, r.org, key);
      }
    } else if o.deductions != [] {
      DeductedTakes(s.rows, Requested(s.jobs[r.code]), depot, r.org, r.code, key);
      assert Init(o.deductions) == [];
    }
  }

  lemma {:induction false} TakenConcat(a: seq<Deduction>, b: seq<Deduction>, depot: Option<Code>, key: Key)
    ensures Taken(a + b, depot, key) == Taken(a, depot, key) + Taken(b, depot, key)
  {
    if b == [] {
      assert a + b == a;
    } else {
      assert Init(a + b) == a + Init(b);
      TakenConcat(a, Init(b), depot, key);
    }
  }

  /** Over any run, a row's stock level falls by exactly what the run's deductions took from it. */
  lemma {:induction false} RunConserves(depot: Option<Code>, s: State, requests: seq<Request>, key: Key)
    requires key in s.rows
    ensures var o := Exec(depot, s, requests);
      key in o.state.rows && Level(o.state.rows[key]) == Level(s.rows[key]) - Taken(o.deductions, depot, key)
  {
    if requests != [] {
      RunConserves(depot, s, Init(requests), key);
      var before := Exec(depot, s, Init(requests));
      StepConserves(depot, before.state, Last(requests), key);
      TakenConcat(before.deductions, Step(depot, before.state, Last(requests)).deductions, depot, key);
    }
  }

  // ------------------------------------------------------------ each finished job once

  /** No update fails between its two commits. */
  predicate NoneFail(requests: seq<Request>) {
    forall i :: 0 <= i < |requests| ==> requests[i].Update? ==> !requests[i].fault.Early?
  }

  predicate IsFinished(s: State, code: Code) {
    code in s.jobs && s.jobs[code].status == Finished
  }

  predicate HasDeduction(ds: seq<Deduction>, code: Code) {
    exists i :: 0 <= i < |ds| && ds[i].job == code
  }

  predicate CreatedFinished(requests: seq<Request>, code: Code) {
    exists i :: 0 <= i < |requests| && requests[i].Create? && requests[i].code == code && requests[i].status == Finished
  }

  /** The deductions are for distinct jobs: those that were not finished, and by now are. */
  ghost predicate OnceEach(s: State, o: Outcome, requests: seq<Request>) {
    && (forall i, j :: 0 <= i < j < |o.deductions| ==> o.deductions[i].job != o.deductions[j].job)
    && (forall code :: HasDeduction(o.deductions, code) ==> IsFinished(o.state, code) && !IsFinished(s, code))
    && (forall code :: IsFinished(s, code) ==> IsFinished(o.state, code))
    && (forall code :: IsFinished(o.state, code) ==>
          IsFinished(s, code) || HasDeduction(o.deductions, code) || CreatedFinished(requests, code))
  }

  /** Step by step: finished jobs stay as they are, and a deduction makes an unfinished job finished. */
  lemma StepFinishes(depot: Option<Code>, s: State, r: Request, code: Code)
    requires r.Update? ==> !r.fault.Early?
    ensures var o := Step(depot, s, r);
      && (IsFinished(s, code) ==> IsFinished(o.state, code) && o.state.jobs[code] == s.jobs[code])
      && (HasDeduction(o.deductions, code) ==> IsFinished(o.state, code) && !IsFinished(s, code))
      && (IsFinished(o.state, code) ==>
            IsFinished(s, code) || HasDeduction(o.deductions, code) || (r.Create? && r.code == code && r.status == Finished))
      && |o.deductions| <= 1
  {
    var o := Step(depot, s, r);
    if o.deductions != [] { assert o.deductions[0].job == r.code; }
  }

  lemma HasDeductionConcat(a: seq<Deduction>, b: seq<Deduction>, code: Code)
    ensures HasDeduction(a + b, code) <==> HasDeduction(a, code) || HasDeduction(b, code)
  {
    if HasDeduction(a, code) {
      var i :| 0 <= i < |a| && a[i].job == code;
      assert (a + b)[i].job == code;
    }
    if HasDeduction(b, code) {
      var i :| 0 <= i < |b| && b[i].job == code;
      assert (a + b)[|a| + i].job == code;
    }
  }

  lemma CreatedSnoc(requests: seq<Request>, code: Code)
    requires requests != []
    ensures CreatedFinished(Init(requests), code) ==> CreatedFinished(requests, code)
    ensures var r := Last(requests); r.Create? && r.code == code && r.status == Finished ==> CreatedFinished(requests, code)
  {
    if CreatedFinished(Init(requests), code) {
      var i :| 0 <= i < |Init(requests)| && Init(requests)[i].Create? && Init(requests)[i].code == code && Init(requests)[i].status == Finished;
      assert requests[i] == Init(requests)[i];
    }
    assert requests[|requests| - 1] == Last(requests);
  }

  /** Every job finished through the endpoints is deducted exactly once, and no other job is. */
  lemma {:induction false} EachFinishIsDeductedOnce(depot: Option<Code>, s: State, requests: seq<Request>)
    requires NoneFail(requests)
    ensures OnceEach(s, Exec(depot, s, requests), requests)
  {
    if requests != [] {
      var init, r := Init(requests), Last(requests);
      assert r == requests[|requests| - 1];
      assert NoneFail(init) by {
        forall i | 0 <= i < |init| ensures init[i].Update? ==> !init[i].fault.Early? { assert init[i] == requests[i]; }
      }
      EachFinishIsDeductedOnce(depot, s, init);
      var before, last, o := Exec(depot, s, init), Step(depot, Exec(depot, s, init).state, r), Exec(depot, s, requests);
      forall code
        ensures HasDeduction(o.deductions, code) ==> IsFinished(o.state, code) && !IsFinished(s, code)
        ensures IsFinished(s, code) ==> IsFinished(o.state, code)
        ensures IsFinished(o.state, code) ==> IsFinished(s, code) || HasDeduction(o.deductions, code) || CreatedFinished(requests, code)
      {
        StepFinishes(depot, before.state, r, code);
        HasDeductionConcat(before.deductions, last.deductions, code);
        CreatedSnoc(requests, code);
      }
      DistinctStays(before, last, r, depot);
    }
  }

  lemma DistinctStays(before: Outcome, last: Outcome, r: Request, depot: Option<Code>)
    requires last == Step(depot, before.state, r) && (r.Update? ==> !r.fault.Early?)
    requires forall i, j :: 0 <= i < j < |before.deductions| ==> before.deductions[i].job != before.deductions[j].job
    requires forall code :: HasDeduction(before.deductions, code) ==> IsFinished(before.state, code)
    ensures var ds := before.deductions + last.deductions;
      forall i, j :: 0 <= i < j < |ds| ==> ds[i].job != ds[j].job
  {
    if last.deductions != [] {
      var code := last.deductions[0].job;
      StepFinishes(depot, before.state, r, code);
      assert HasDeduction(last.deductions, code);
      assert !HasDeduction(before.deductions, code);
    }
  }

  // ------------------------------------------------------------ what each finished job asked for

  /** A finish through an update: for which organisation, and the job's stored lines before and after it. */
  datatype Finishing = Finishing(org: int, lines: seq<ItemLine>, after: seq<ItemLine>)

  function FinishingOf(depot: Option<Code>, s: State, r: Request): Finishing
    requires FinishedBy(depot, s, r)
  {
    Finishing(r.org, Requested(s.jobs[r.code]), Requested(Step(depot, s, r).state.jobs[r.code]))
  }

  /** The update makes its job finished. */
  predicate FinishedBy(depot: Option<Code>, s: State, r: Request) {
    r.Update? && r.code in s.jobs && !IsFinished(s, r.code) && IsFinished(Step(depot, s, r).state, r.code)
  }

  /** The jobs that became finished by an update of the run. */
  function Finishes(depot: Option<Code>, s: State, requests: seq<Request>): (m: map<Code, Finishing>) {
    if requests == [] then map[]
    else
      var before, r := Exec(depot, s, Init(requests)).state, Last(requests);
      var earlier := Finishes(depot, s, Init(requests));
      if FinishedBy(depot, before, r)
      then earlier[r.code := FinishingOf(depot, before, r)]
      else earlier
  }

  /** What a finish asked of a row: the last quantity its lines give for the item, in its organisation and the default depot. */
  function Asked(f: Finishing, depot: Option<Code>, key: Key): real {
    if depot == Some(key.depot) && key.org == f.org then LastQty(f.lines, key.item) else 0.0
  }

  ghost function TotalAsked(m: map<Code, Finishing>, depot: Option<Code>, key: Key): real
    decreases |m|
  {
    if m == map[] then 0.0
    else
      var code :| code in m;
      Asked(m[code], depot, key) + TotalAsked(m - {code}, depot, key)
  }

  /** The total does not depend on the order of adding up. */
  lemma {:induction false} TotalWithout(m: map<Code, Finishing>, depot: Option<Code>, key: Key, code: Code)
    requires code in m
    ensures TotalAsked(m, depot, key) == Asked(m[code], depot, key) + TotalAsked(m - {code}, depot, key)
    decreases |m|
  {
    var first :| first in m && TotalAsked(m, depot, key) == Asked(m[first], depot, key) + TotalAsked(m - {first}, depot, key);
    if first != code {
      TotalWithout(m - {first}, depot, key, code);
      TotalWithout(m - {code}, depot, key, first);
      assert m - {first} - {code} == m - {code} - {first};
    }
  }

  lemma TotalWith(m: map<Code, Finishing>, depot: Option<Code>, key: Key, code: Code, f: Finishing)
    requires code !in m
    ensures TotalAsked(m[code := f], depot, key) == TotalAsked(m, depot, key) + Asked(f, depot, key)
  {
    TotalWithout(m[code := f], depot, key, code);
    assert m[code := f] - {code} == m;
  }

  /** A job finished in the run was not finished before it, and still stores the lines its finishing update left. */
  lemma {:induction false} FinishesStay(depot: Option<Code>, s: State, requests: seq<Request>, code: Code)
    requires NoneFail(requests) && code in Finishes(depot, s, requests)
    ensures IsFinished(Exec(depot, s, requests).state, code) && !IsFinished(s, code)
    ensures Requested(Exec(depot, s, requests).state.jobs[code]) == Finishes(depot, s, requests)[code].after
  {
    var init, r := Init(requests), Last(requests);
    NoneFailBefore(requests);
    var before := Exec(depot, s, init).state;
    StepFinishes(depot, before, r, code);
    if code in Finishes(depot, s, init) {
      FinishesStay(depot, s, init, code);
    } else {
      EachFinishIsDeductedOnce(depot, s, init);
    }
  }

  lemma NoneFailBefore(requests: seq<Request>)
    requires requests != [] && NoneFail(requests)
    ensures NoneFail(Init(requests)) && (Last(requests).Update? ==> !Last(requests).fault.Early?)
  {
    forall i | 0 <= i < |Init(requests)| ensures Init(requests)[i].Update? ==> !Init(requests)[i].fault.Early? {
      assert Init(requests)[i] == requests[i];
    }
    assert Last(requests) == requests[|requests| - 1];
  }

  /** A step takes what the job it finishes asked for, and nothing if it finishes none. */
  lemma StepTakesWhatIsAsked(depot: Option<Code>, s: State, r: Request, key: Key)
    requires r.Update? ==> !r.fault.Early?
    ensures Taken(Step(depot, s, r).deductions, depot, key) ==
      if FinishedBy(depot, s, r)
      then Asked(FinishingOf(depot, s, r), depot, key) else 0.0
  {
    var o := Step(depot, s, r);
    if o.deductions != [] {
      var lines := Requested(s.jobs[r.code]);
      assert Init(o.deductions) == [];
      if lines != [] { DictIsLastLine(lines, key.item); }
    }
  }

  /**
   Conservation over whole runs: a row's final level is its initial level minus the sum, over the
   jobs that updates of the run finished, of what each asked for, once each.
   */
  lemma {:induction false} StockIsConserved(depot: Option<Code>, s: State, requests: seq<Request>, key: Key)
    requires NoneFail(requests) && key in s.rows
    ensures var t := Exec(depot, s, requests).state;
      key in t.rows && Level(t.rows[key]) == Level(s.rows[key]) - TotalAsked(Finishes(depot, s, requests), depot, key)
  {
    if requests != [] {
      var init, r := Init(requests), Last(requests);
      NoneFailBefore(requests);
      StockIsConserved(depot, s, init, key);
      var before := Exec(depot, s, init).state;
      StepConserves(depot, before, r, key);
      StepTakesWhatIsAsked(depot, before, r, key);
      if FinishedBy(depot, before, r) {
        var earlier := Finishes(depot, s, init);
        if r.code in earlier { FinishesStay(depot, s, init, r.code); }
        TotalWith(earlier, depot, key, r.code, FinishingOf(depot, before, r));
      }
    }
  }

  /** The finished jobs are those the run's deductions are for. */
  lemma {:induction false} FinishesAreDeductions(depot: Option<Code>, s: State, requests: seq<Request>, code: Code)
    requires NoneFail(requests)
    ensures code in Finishes(depot, s, requests) <==> HasDeduction(Exec(depot, s, requests).deductions, code)
  {
    if requests != [] {
      var init, r := Init(requests), Last(requests);
      NoneFailBefore(requests);
      FinishesAreDeductions(depot, s, init, code);
      var before := Exec(depot, s, init);
      var last := Step(depot, before.state, r);
      HasDeductionConcat(before.deductions, last.deductions, code);
      if last.deductions != [] {
        assert last.deductions[0].job == r.code;
        assert HasDeduction(last.deductions, r.code);
      }
      StepFinishes(depot, before.state, r, code);
    }
  }

  /**
   A finishing update may bring new lines as well. What it deducts is the old lines; that is what
   the job still asks for afterwards exactly when old and new lines read the same.
   */
  lemma DeductsWhatIsStillStoredIff(depot: Option<Code>, s: State, r: Request)
    requires r.Update? && !r.fault.Early? && Step(depot, s, r).deductions != []
    ensures var o := Step(depot, s, r);
      && |o.deductions| == 1 && o.deductions[0].job == r.code && r.code in s.jobs && IsFinished(o.state, r.code)
      && (ItemDict(Requested(o.state.jobs[r.code])) == Some(o.deductions[0].items) <==>
            r.newLines.None? || ItemDict(Requested(Job(Finished, r.newLines.value))) == ItemDict(Requested(s.jobs[r.code])))
  {
    assert ItemDict([]) == Some([]);
  }

  // ------------------------------------------------------------ when a finish goes through

  /** A request to finish a job that may be finished. */
  predicate FinishRequest(s: State, r: Request) {
    r.Update? && r.newStatus == Some(Finished) && r.code in s.jobs && s.jobs[r.code].status != Finished && s.jobs[r.code].status != Unplanned
  }

  /** The stock has what the job's stored lines ask for. */
  ghost predicate StockSuffices(depot: Option<Code>, rows: Rows, lines: seq<ItemLine>, org: int) {
    lines != [] ==>
      WellFormed(lines) && depot.Some? && forall code :: Mentions(lines, code) ==>
        Key(code, depot.value, org) in rows && Enough(rows[Key(code, depot.value, org)], LastQty(lines, code))
  }

  lemma SufficesIff(depot: Option<Code>, rows: Rows, lines: seq<ItemLine>, org: int)
    ensures Deducted(rows, lines, depot, org).Some? <==> StockSuffices(depot, rows, lines, org)
  {
    WellFormedHasDict(lines);
    if lines != [] && depot.Some? && WellFormed(lines) {
      var items := ItemDict(lines).value;
      DictIsLastLine(lines, Code(""));
      FinishIsExact(rows, items, depot.value, org);
      if CanFinish(rows, items, depot.value, org) {
        forall code | Mentions(lines, code)
          ensures Key(code, depot.value, org) in rows && Enough(rows[Key(code, depot.value, org)], LastQty(lines, code))
        {
          DictIsLastLine(lines, code);
          var i :| 0 <= i < |items| && items[i].code == code;
          QtyOfDistinct(items, i);
        }
      }
      if StockSuffices(depot, rows, lines, org) {
        forall i | 0 <= i < |items|
          ensures Key(items[i].code, depot.value, org) in rows && Enough(rows[Key(items[i].code, depot.value, org)], items[i].qty)
        {
          DictIsLastLine(lines, items[i].code);
          QtyOfDistinct(items, i);
          assert HasCode(items, items[i].code);
        }
      }
    }
  }

  /** A finish succeeds exactly when the stock suffices; otherwise no row and no job changes. */
  lemma FinishSucceedsIff(depot: Option<Code>, s: State, r: Request)
    requires FinishRequest(s, r) && !r.fault.Early?
    ensures IsFinished(Step(depot, s, r).state, r.code) <==> StockSuffices(depot, s.rows, Requested(s.jobs[r.code]), r.org)
    ensures !StockSuffices(depot, s.rows, Requested(s.jobs[r.code]), r.org) ==> Step(depot, s, r) == Outcome(s, [])
  {
    SufficesIff(depot, s.rows, Requested(s.jobs[r.code]), r.org);
  }

  /** The same update again, this time without the failure. */
  function Retry(r: Request): Request
    requires r.Update?
  {
    Update(r.code, r.org, r.newStatus, r.newLines, NoFault)
  }

  /**
   The deduction and the job are committed apart. An update takes stock without finishing its job
   exactly when it fails in between, and the retry takes the same items again. Behind both
   commits a failure does no harm: the retry finds the job finished and changes nothing.
   */
  lemma FailedFinishIsTakenAgain(depot: Option<Code>, s: State, r: Request)
    requires FinishRequest(s, r)
    ensures var o := Step(depot, s, r);
      (o.deductions != [] && !IsFinished(o.state, r.code)) <==> (r.fault.Early? && StockSuffices(depot, s.rows, Requested(s.jobs[r.code]), r.org))
    ensures r.fault.Early? ==>
      var o1 := Step(depot, s, r); var o2 := Step(depot, o1.state, Retry(r));
      IsFinished(o2.state, r.code) ==> o1.deductions == o2.deductions && |o2.deductions| == 1
    ensures r.fault.Late? && IsFinished(Step(depot, s, r).state, r.code) ==>
      Step(depot, Step(depot, s, r).state, Retry(r)) == Outcome(Step(depot, s, r).state, [])
  {
    SufficesIff(depot, s.rows, Requested(s.jobs[r.code]), r.org);
    if r.fault.Early? {
      var o1 := Step(depot, s, r);
      SufficesIff(depot, o1.state.rows, Requested(s.jobs[r.code]), r.org);
      if !StockSuffices(depot, s.rows, Requested(s.jobs[r.code]), r.org) {
        assert o1.state == s;
      }
    }
  }

  // ------------------------------------------------------------ what a request does

  /** The creation goes through. */
  ghost predicate Creatable(s: State, r: Request) {
    && r.Create? && r.code !in s.jobs && !r.fault.Early?
    && (r.replenish ==> r.lines.Some? && r.depot.Some? && CanMove(s.rows, r.lines.value, r.depot.value, r.org))
  }

  /** The row belongs to what the creation replenishes. */
  predicate Replenished(r: Request, key: Key) {
    r.Create? && r.replenish && r.lines.Some? && r.depot == Some(key.depot) && r.org == key.org
  }

  /**
   A creation that goes through adds the job as given, and for a replenishment moves the sum of
   an item's lines from current to allocated; any other changes nothing.
   */
  lemma CreateDoes(depot: Option<Code>, s: State, r: Request, key: Key)
    requires r.Create?
    ensures var o := Step(depot, s, r);
      && o.deductions == []
      && o.state.jobs == (if Creatable(s, r) then s.jobs[r.code := Job(r.status, r.lines)] else s.jobs)
      && (!Creatable(s, r) ==> o.state == s)
      && (key in o.state.rows <==> key in s.rows)
      && (key in s.rows && Creatable(s, r) ==>
            var row := s.rows[key];
            o.state.rows[key] == (
              if Replenished(r, key)
              then Row(row.allocatedQty + TotalOf(r.lines.value, key.item), row.currQty - TotalOf(r.lines.value, key.item))
              else row))
  {
    if r.replenish && r.lines.Some? && r.depot.Some? {
      ReplenishSucceedsIff(s.rows, r.lines.value, r.depot.value, r.org);
      if Replenish(s.rows, r.lines.value, r.depot.value, r.org).Some? {
        ReplenishMoves(s.rows, r.lines.value, r.depot.value, r.org, key);
      }
    }
  }

  /** The update is let through: the job is not finished, and if it is to be, it may be and its items are in stock. */
  ghost predicate Admitted(depot: Option<Code>, s: State, r: Request) {
    && r.Update? && r.code in s.jobs && s.jobs[r.code].status != Finished
    && (r.newStatus == Some(Finished) ==>
          s.jobs[r.code].status != Unplanned && StockSuffices(depot, s.rows, Requested(s.jobs[r.code]), r.org))
  }

  /**
   An update that is let through sets the status and the lines it brings and keeps the others,
   unless it fails before that; it deducts the stored items just when it finishes the job. Any
   other changes nothing.
   */
  lemma UpdateDoes(depot: Option<Code>, s: State, r: Request)
    requires r.Update?
    ensures var o := Step(depot, s, r);
      && (!Admitted(depot, s, r) ==> o == Outcome(s, []))
      && (Admitted(depot, s, r) ==>
            var job := s.jobs[r.code];
            && o.state.jobs == (if r.fault.Early? then s.jobs
                                else s.jobs[r.code := Job(if r.newStatus.None? then job.status else r.newStatus.value,
                                                          if r.newLines.None? then job.lines else r.newLines.value)])
            && (r.newStatus != Some(Finished) ==> o.deductions == [] && o.state.rows == s.rows)
            && (r.newStatus == Some(Finished) ==>
                  |o.deductions| == 1 && o.deductions[0].job == r.code && o.deductions[0].org == r.org
                  && ItemDict(Requested(job)) == Some(o.deductions[0].items)))
  {
    if r.code in s.jobs {
      SufficesIff(depot, s.rows, Requested(s.jobs[r.code]), r.org);
      assert ItemDict([]) == Some([]);
    }
  }

  /** A finish deducts the last quantity of every stored item from its row of the default depot, and touches no other row. */
  lemma FinishDeducts(depot: Option<Code>, s: State, r: Request, key: Key)
    requires Admitted(depot, s, r) && r.newStatus == Some(Finished) && key in s.rows
    ensures var rows, lines := Step(depot, s, r).state.rows, Requested(s.jobs[r.code]);
      && key in rows
      && rows[key] == (
           if depot == Some(key.depot) && key.org == r.org && Mentions(lines, key.item)
           then Deduct(s.rows[key], LastQty(lines, key.item))
           else s.rows[key])
  {
    var lines := Requested(s.jobs[r.code]);
    SufficesIff(depot, s.rows, lines, r.org);
    if lines != [] {
      DictIsLastLine(lines, key.item);
      FinishIsExact(s.rows, ItemDict(lines).value, depot.value, r.org);
    }
  }

  // ------------------------------------------------------------ signs

  ghost predicate AllNonNegative(rows: Rows) {
    forall key :: key in rows ==> NonNegative(rows[key])
  }

  /** A replenishment that moves more out of some row than the row has, one way or the other. */
  ghost predicate ShortReplenishment(s: State, r: Request) {
    && r.Create? && r.replenish && r.lines.Some? && r.depot.Some? && r.code !in s.jobs && !r.fault.Early?
    && Replenish(s.rows, r.lines.value, r.depot.value, r.org).Some?
    && exists key :: key in s.rows && key.depot == r.depot.value && key.org == r.org
         && !(-s.rows[key].allocatedQty <= TotalOf(r.lines.value, key.item) <= s.rows[key].currQty)
  }

  /** Only a short replenishment ever makes a row negative, and it always does. */
  lemma SignIsLostIff(depot: Option<Code>, s: State, r: Request)
    requires AllNonNegative(s.rows)
    ensures AllNonNegative(Step(depot, s, r).state.rows) <==> !ShortReplenishment(s, r)
  {
    var o := Step(depot, s, r);
    if r.Create? {
      if r.code !in s.jobs && !r.fault.Early? && r.replenish && r.lines.Some? && r.depot.Some?
         && Replenish(s.rows, r.lines.value, r.depot.value, r.org).Some? {
        var rows := Replenish(s.rows, r.lines.value, r.depot.value, r.org).value;
        forall key | key in s.rows
          ensures key in rows && (NonNegative(rows[key]) <==>
            !(key.depot == r.depot.value && key.org == r.org) ||
            -s.rows[key].allocatedQty <= TotalOf(r.lines.value, key.item) <= s.rows[key].currQty)
        {
          ReplenishMoves(s.rows, r.lines.value, r.depot.value, r.org, key);
        }
        ReplenishMoves(s.rows, r.lines.value, r.depot.value, r.org, Key(Code(""), Code(""), 0));
      }
    } else if o.deductions != [] {
      forall key | key in o.state.rows ensures NonNegative(o.state.rows[key]) {
        SameRows(s.rows, Requested(s.jobs[r.code]), depot, r.org);
        DeductedTakes(s.rows, Requested(s.jobs[r.code]), depot, r.org, r.code, key);
      }
    }
  }

  lemma SameRows(rows: Rows, lines: seq<ItemLine>, depot: Option<Code>, org: int)
    requires Deducted(rows, lines, depot, org).Some?
    ensures Deducted(rows, lines, depot, org).value.0.Keys == rows.Keys
  {
    if lines != [] {
      DictIsLastLine(lines, Code(""));
      FinishIsExact(rows, ItemDict(lines).value, depot.value, org);
    }
  }

  // ------------------------------------------------------------ the server

  /** A prefix that fails makes the whole fail. */
  lemma {:induction false} DictFails(lines: seq<ItemLine>, n: nat)
    requires n <= |lines| && ItemDict(lines[..n]).None?
    ensures ItemDict(lines).None?
    decreases |lines|
  {
    if n < |lines| {
      assert Init(lines)[..n] == lines[..n];
      DictFails(Init(lines), n);
    } else {
      assert lines[..n] == lines;
    }
  }

  lemma {:induction false} FinishFails(rows: Rows, items: seq<Item>, depot: Code, org: int, n: nat)
    requires n <= |items| && Finish(rows, items[..n], depot, org).None?
    ensures Finish(rows, items, depot, org).None?
    decreases |items|
  {
    if n < |items| {
      assert Init(items)[..n] == items[..n];
      FinishFails(rows, Init(items), depot, org, n);
    } else {
      assert items[..n] == items;
    }
  }

  lemma {:induction false} ReplenishFails(rows: Rows, lines: seq<ItemLine>, depot: Code, org: int, n: nat)
    requires n <= |lines| && Replenish(rows, lines[..n], depot, org).None?
    ensures Replenish(rows, lines, depot, org).None?
    decreases |lines|
  {
    if n < |lines| {
      assert Init(lines)[..n] == lines[..n];
      ReplenishFails(rows, Init(lines), depot, org, n);
    } else {
      assert lines[..n] == lines;
    }
  }

  method FromItemListToDict(lines: seq<ItemLine>) returns (r: Option<seq<Item>>)
    ensures r == ItemDict(lines)
  {
    var items: seq<Item> := [];
    for i := 0 to |lines|
      invariant ItemDict(lines[..i]) == Some(items)
    {
      assert Init(lines[..i + 1]) == lines[..i] && Last(lines[..i + 1]) == lines[i];
      var item := ParseItem(lines[i]);
      if item.None? {
        DictFails(lines, i + 1);
        return None;
      }
      items := if HasCode(items, item.value.code) then Put(items, item.value.code, item.value.qty) else items + [item.value];
    }
    assert lines[..|lines|] == lines;
    return Some(items);
  }

  /** The deduction loop; it works on the session's uncommitted rows. */
  method DeductItems(rows: Rows, items: seq<Item>, depot: Code, org: int) returns (r: Option<Rows>)
    ensures r == Finish(rows, items, depot, org)
  {
    var session := rows;
    for i := 0 to |items|
      invariant Finish(rows, items[..i], depot, org) == Some(session)
    {
      assert Init(items[..i + 1]) == items[..i] && Last(items[..i + 1]) == items[i];
      var key := Key(items[i].code, depot, org);
      if key !in session {
        FinishFails(rows, items, depot, org, i + 1);
        return None;
      }
      var inv := session[key];
      inv := inv.(allocatedQty := inv.allocatedQty - items[i].qty);
      if inv.allocatedQty < 0.0 {
        inv := inv.(currQty := inv.currQty + inv.allocatedQty);
        inv := inv.(allocatedQty := 0.0);
      }
      if inv.currQty < 0.0 {
        FinishFails(rows, items, depot, org, i + 1);
        return None;
      }
      session := session[key := inv];
    }
    assert items[..|items|] == items;
    return Some(session);
  }

  /** The replenishment loop; a shortage is only logged. */
  method MoveItems(rows: Rows, lines: seq<ItemLine>, depot: Code, org: int) returns (r: Option<Rows>)
    ensures r == Replenish(rows, lines, depot, org)
  {
    var session := rows;
    for i := 0 to |lines|
      invariant Replenish(rows, lines[..i], depot, org) == Some(session)
    {
      assert Init(lines[..i + 1]) == lines[..i] && Last(lines[..i + 1]) == lines[i];
      var item := ParseItem(lines[i]);
      if item.None? || Key(item.value.code, depot, org) !in session {
        ReplenishFails(rows, lines, depot, org, i + 1);
        return None;
      }
      var key := Key(item.value.code, depot, org);
      var inv := session[key];
      inv := inv.(currQty := inv.currQty - item.value.qty);
      inv := inv.(allocatedQty := inv.allocatedQty + item.value.qty);
      session := session[key := inv];
    }
    assert lines[..|lines|] == lines;
    return Some(session);
  }

  class StockServer {
    var rows: Rows
    var jobs: map<Code, Job>
    const defaultDepot: Option<Code>
    ghost var deductions: seq<Deduction>

    constructor (rows: Rows, jobs: map<Code, Job>, defaultDepot: Option<Code>)
      ensures this.rows == rows && this.jobs == jobs && this.defaultDepot == defaultDepot && deductions == []
    {
      this.rows := rows;
      this.jobs := jobs;
      this.defaultDepot := defaultDepot;
      deductions := [];
    }

    ghost function View(): State
      reads this
    {
      State(rows, jobs)
    }

    /** Creates a job, and for a replenishment moves its items, in one commit. */
    method CreateJob(code: Code, status: Status, lines: Option<seq<ItemLine>>, replenish: bool, depot: Option<Code>, org: int, fault: Fault)
      returns (reported: bool)
      modifies this
      ensures Outcome(View(), []) == Step(defaultDepot, old(View()), Create(code, status, lines, replenish, depot, org, fault))
      ensures deductions == old(deductions)
      ensures reported <==> code !in old(jobs) && code in jobs && !fault.Late?
    {
      if code in jobs || fault.Early? {
        return false;
      }
      var session := rows;
      if replenish {
        if depot.None? || lines.None? {
          return false;
        }
        var moved := MoveItems(session, lines.value, depot.value, org);
        if moved.None? {
          return false;
        }
        session := moved.value;
      }
      rows, jobs := session, jobs[code := Job(status, lines)];
      return !fault.Late?;
    }

    /** Either update endpoint: deduct and commit, then update the job and commit. */
    method UpdateJob(code: Code, org: int, newStatus: Option<Status>, newLines: Option<Option<seq<ItemLine>>>, fault: Fault)
      returns (reported: bool)
      modifies this
      ensures var o := Step(defaultDepot, old(View()), Update(code, org, newStatus, newLines, fault));
        View() == o.state && deductions == old(deductions) + o.deductions
      ensures reported ==> code in old(jobs) && jobs == old(jobs)[code := Updated(old(jobs)[code], Update(code, org, newStatus, newLines, fault))]
      ensures !reported && !fault.Late? ==> jobs == old(jobs) && (!fault.Early? ==> rows == old(rows))
    {
      if code !in jobs {
        return false;
      }
      var job := jobs[code];
      if job.status == Finished {
        return false;
      }
      if newStatus == Some(Finished) {
        if job.status == Unplanned {
          return false;
        }
        var taken: seq<Item> := [];
        var itemList := Requested(job);
        if |itemList| > 0 {
          var items := FromItemListToDict(itemList);
          if items.None? || defaultDepot.None? {
            return false;
          }
          var session := DeductItems(rows, items.value, defaultDepot.value, org);
          if session.None? {
            return false;
          }
          rows, taken := session.value, items.value;
        }
        deductions := deductions + [Deduction(code, taken, org)];
      }
      if fault.Early? {
        return false;
      }
      jobs := jobs[code := Updated(job, Update(code, org, newStatus, newLines, fault))];
      return !fault.Late?;
    }
  }
}
