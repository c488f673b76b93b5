/**
 The job planning state of one environment as messages from other instances change it, applied
 without mutation of slots: Create_Job, Update_Job, Reschedule_Job and Refresh_Job.
 */
module PlanningEnv {
  import opened Common

  datatype Status = InPlanning | Unplanned | Planned | Cancelled | Finished

  /** What a message can change about a job: three planning fields compared together, and the duration. */
  datatype Triple = Triple(status: Status, start: int, workers: seq<Code>)
  datatype Plan = Plan(triple: Triple, duration: int)

  /** What encoding a payload entry gives: a plan, nothing because the entry is invalid, or an exception. */
  datatype Encoding = Encoded(plan: Plan) | Invalid | Fails

  /** An entry's requested start; Unreadable when comparing it raises. */
  datatype Start = At(minutes: int) | Unstated | Unreadable

  datatype Change =
    | CreateJob(code: Code, encoding: Encoding)
    | UpdateJob(code: Code, encoding: Encoding, start: Start)
    | RescheduleJob(code: Code, encoding: Encoding)
    | RefreshJob(code: Code, refreshed: Plan)
    | NoCode  // the entry lacks its job code

  datatype Message = Message(source: Code, payload: seq<Change>)

  /**
   An entry as it is read: the planning horizon ends at a minute that the environment works out
   from the clock each time it looks.
   */
  datatype Reading = Reading(change: Change, horizonEnd: int)

  datatype Received = Received(source: Code, payload: seq<Reading>)

  /** Where the horizon ends when entry i of message k is handled. */
  type Clock = (nat, nat) -> int

  function Dated(payload: seq<Change>, ends: nat -> int): (r: seq<Reading>)
    ensures |r| == |payload| && forall i :: 0 <= i < |payload| ==> r[i] == Reading(payload[i], ends(i))
  {
    seq(|payload|, i requires 0 <= i < |payload| => Reading(payload[i], ends(i)))
  }

  function EndsOf(clock: Clock, k: nat): nat -> int {
    (i: nat) => clock(k, i)
  }

  /** The log as a reader with this clock receives it. */
  function ReceivedBy(clock: Clock, log: seq<Message>): (r: seq<Received>)
    ensures |r| == |log|
    ensures forall k :: 0 <= k < |log| ==> r[k] == Received(log[k].source, Dated(log[k].payload, EndsOf(clock, k)))
  {
    seq(|log|, k requires 0 <= k < |log| => Received(log[k].source, Dated(log[k].payload, EndsOf(clock, k))))
  }

  type Jobs = map<Code, Plan>

  // ------------------------------------------------------------ one entry

  /** The handler cannot do without a plan for this entry if the job is known. */
  predicate Undecodable(c: Change) {
    (c.RescheduleJob? && !c.encoding.Encoded?) || (c.UpdateJob? && c.encoding.Fails?)
  }

  /** An exception leaves the handler; it has changed nothing before. */
  predicate Raises(jobs: Jobs, c: Change) {
    || (Undecodable(c) && c.code in jobs)
    || (Incomparable(c) && c.code !in jobs)
  }

  /** Its start cannot be compared with the horizon. */
  predicate Incomparable(c: Change) {
    c.UpdateJob? && c.start.Unreadable?
  }

  predicate WithinHorizon(start: Start, horizonEnd: int) {
    start.At? && start.minutes < horizonEnd
  }

  function Reschedule(curr: Plan, p: Plan): Plan {
    if curr.triple != p.triple then p else curr
  }

  function Rescheduled(jobs: Jobs, code: Code, e: Encoding): Jobs
    requires code in jobs
  {
    if e.Encoded? then jobs[code := Reschedule(jobs[code], e.plan)] else jobs
  }

  function Created(jobs: Jobs, code: Code, e: Encoding): Jobs {
    if e.Encoded? && code !in jobs then jobs[code := e.plan] else jobs
  }

  function Apply(jobs: Jobs, r: Reading): Jobs {
    match r.change
    case NoCode => jobs
    case CreateJob(code, e) => Created(jobs, code, e)
    case UpdateJob(code, e, start) =>
      if code in jobs then Rescheduled(jobs, code, e)
      else if WithinHorizon(start, r.horizonEnd) then Created(jobs, code, e)
      else jobs
    case RescheduleJob(code, e) => if code in jobs then Rescheduled(jobs, code, e) else jobs
    case RefreshJob(code, p) => if code in jobs then jobs[code := p] else jobs
  }

  function ApplyAll(jobs: Jobs, changes: seq<Reading>): (r: Jobs)
    decreases |changes|
  {
    if changes == [] then jobs else ApplyAll(Apply(jobs, changes[0]), changes[1..])
  }

  /** An update makes a job that is lacking exactly when it can be encoded and starts before the horizon ends, and then as it says. */
  lemma UpdateMakesJobIff(jobs: Jobs, code: Code, e: Encoding, start: Start, horizonEnd: int)
    requires code !in jobs
    ensures var after := Apply(jobs, Reading(UpdateJob(code, e, start), horizonEnd));
      && (code in after <==> e.Encoded? && start.At? && start.minutes < horizonEnd)
      && (code in after ==> after == jobs[code := e.plan])
      && (code !in after ==> after == jobs)
  {
  }

  /** What makes a job under one horizon makes it under any later one, and what a later one does not make no earlier one does. */
  lemma LaterHorizonMakesToo(jobs: Jobs, c: Change, soon: int, late: int)
    requires soon <= late
    ensures Apply(jobs, Reading(c, soon)) == Apply(jobs, Reading(c, late)) ||
      (c.UpdateJob? && c.code !in jobs && Apply(jobs, Reading(c, soon)) == jobs && Apply(jobs, Reading(c, late)).Keys == jobs.Keys + {c.code})
  {
  }

  // ------------------------------------------------------------ one payload, one pass, many passes

  datatype Handled = Handled(jobs: Jobs, raised: bool)

  /** The entries in order, up to the first one that raises. */
  function Handle(jobs: Jobs, payload: seq<Reading>): (h: Handled)
    decreases |payload|
  {
    if payload == [] then Handled(jobs, false)
    else if Raises(jobs, payload[0].change) then Handled(jobs, true)
    else Handle(Apply(jobs, payload[0]), payload[1..])
  }

  function HandleMessage(jobs: Jobs, instCode: Code, m: Received): (h: Handled) {
    if m.source == instCode then Handled(jobs, false) else Handle(jobs, m.payload)
  }

  /** One pass: message by message, up to the first one that raises. */
  function Read(jobs: Jobs, instCode: Code, log: seq<Received>): (h: Handled)
    decreases |log|
  {
    if log == [] then Handled(jobs, false)
    else
      var h := HandleMessage(jobs, instCode, log[0]);
      if h.raised then h else Read(h.jobs, instCode, log[1..])
  }

  /** How many messages that pass takes from the consumer, the raising one included. */
  function Taken(jobs: Jobs, instCode: Code, log: seq<Received>): (n: nat)
    ensures n <= |log|
    ensures Read(jobs, instCode, log).raised ==> 0 < n
    ensures !Read(jobs, instCode, log).raised ==> n == |log|
    decreases |log|
  {
    if log == [] then 0
    else
      var h := HandleMessage(jobs, instCode, log[0]);
      if h.raised then 1 else 1 + Taken(h.jobs, instCode, log[1..])
  }

  /** All messages over as many passes as it takes: a raising message loses the rest of its own payload. */
  function Drain(jobs: Jobs, instCode: Code, log: seq<Received>): (r: Jobs)
    decreases |log|
  {
    if log == [] then jobs else Drain(HandleMessage(jobs, instCode, log[0]).jobs, instCode, log[1..])
  }

  /** What an instance sees of a stretch of the log: the entries of the messages that are not its own. */
  function Visible(instCode: Code, log: seq<Received>): (r: seq<Reading>) {
    if log == [] then []
    else (if log[0].source == instCode then [] else log[0].payload) + Visible(instCode, log[1..])
  }

  lemma {:induction false} ApplyAllConcat(jobs: Jobs, a: seq<Reading>, b: seq<Reading>)
    ensures ApplyAll(jobs, a + b) == ApplyAll(ApplyAll(jobs, a), b)
    decreases |a|
  {
    if a == [] {
      assert a + b == b;
    } else {
      ApplyAllConcat(Apply(jobs, a[0]), a[1..], b);
      assert (a + b)[1..] == a[1..] + b;
    }
  }

  /** Two payloads one after the other are one payload, exceptions included. */
  lemma {:induction false} HandleConcat(jobs: Jobs, a: seq<Reading>, b: seq<Reading>)
    ensures Handle(jobs, a + b) == if Handle(jobs, a).raised then Handle(jobs, a) else Handle(Handle(jobs, a).jobs, b)
    decreases |a|
  {
    if a == [] {
      assert a + b == b;
    } else if !Raises(jobs, a[0].change) {
      HandleConcat(Apply(jobs, a[0]), a[1..], b);
      assert (a + b)[1..] == a[1..] + b;
    }
  }

  lemma {:induction false} HandledIsApplied(jobs: Jobs, payload: seq<Reading>)
    requires !Handle(jobs, payload).raised
    ensures Handle(jobs, payload).jobs == ApplyAll(jobs, payload)
    decreases |payload|
  {
    if payload != [] { HandledIsApplied(Apply(jobs, payload[0]), payload[1..]); }
  }

  /** A pass over messages does what one message with all the entries the instance sees would do. */
  lemma {:induction false} ReadIsHandle(jobs: Jobs, instCode: Code, log: seq<Received>)
    ensures Read(jobs, instCode, log) == Handle(jobs, Visible(instCode, log))
    decreases |log|
  {
    if log != [] {
      var h := HandleMessage(jobs, instCode, log[0]);
      var seen := if log[0].source == instCode then [] else log[0].payload;
      HandleConcat(jobs, seen, Visible(instCode, log[1..]));
      if !h.raised { ReadIsHandle(h.jobs, instCode, log[1..]); }
    }
  }

  lemma {:induction false} VisibleConcat(instCode: Code, a: seq<Received>, b: seq<Received>)
    ensures Visible(instCode, a + b) == Visible(instCode, a) + Visible(instCode, b)
  {
    if a == [] {
      assert a + b == b;
    } else {
      VisibleConcat(instCode, a[1..], b);
      VisibleCons(instCode, a[0], a[1..] + b);
      assert a + b == [a[0]] + (a[1..] + b);
      var first := if a[0].source == instCode then [] else a[0].payload;
      Associate(first, Visible(instCode, a[1..]), Visible(instCode, b));
    }
  }

  lemma VisibleCons(instCode: Code, m: Received, log: seq<Received>)
    ensures Visible(instCode, [m] + log) == (if m.source == instCode then [] else m.payload) + Visible(instCode, log)
  {
    assert ([m] + log)[1..] == log;
  }

  /** What a pass from message p on comes to, and the message before which the consumer then stands. */
  datatype Passed = Passed(handled: Handled, stop: nat)

  function PassFrom(jobs: Jobs, instCode: Code, log: seq<Received>, p: nat): Passed
    requires p <= |log|
  {
    Passed(Read(jobs, instCode, log[p..]), p + Taken(jobs, instCode, log[p..]))
  }

  lemma PassOne(jobs: Jobs, instCode: Code, log: seq<Received>, p: nat)
    requires p < |log|
    ensures var h := HandleMessage(jobs, instCode, log[p]);
      PassFrom(jobs, instCode, log, p) == if h.raised then Passed(h, p + 1) else PassFrom(h.jobs, instCode, log, p + 1)
  {
    assert log[p..][1..] == log[p + 1..];
  }

  /** A pass, and then passes over what it left in the consumer, come to what draining the log comes to. */
  lemma {:induction false} PassesDrain(jobs: Jobs, instCode: Code, log: seq<Received>)
    ensures Drain(jobs, instCode, log) == Drain(Read(jobs, instCode, log).jobs, instCode, log[Taken(jobs, instCode, log)..])
    decreases |log|
  {
    if log != [] {
      var h := HandleMessage(jobs, instCode, log[0]);
      if !h.raised {
        PassesDrain(h.jobs, instCode, log[1..]);
        var n := Taken(h.jobs, instCode, log[1..]);
        assert log[1..][n..] == log[1 + n..];
      }
    } else {
      assert log[0..] == log;
    }
  }

  /** No entry of the payload can raise, whatever the jobs. */
  predicate NeverRaises(payload: seq<Reading>) {
    forall r :: r in payload ==> !Undecodable(r.change) && !Incomparable(r.change)
  }

  /** Payloads whose entries all can be encoded where that is needed, and compared, never raise. */
  lemma {:induction false} DecodableNeverRaises(jobs: Jobs, payload: seq<Reading>)
    requires NeverRaises(payload)
    ensures Handle(jobs, payload) == Handled(ApplyAll(jobs, payload), false)
    decreases |payload|
  {
    if payload != [] {
      assert payload[0] in payload;
      DecodableNeverRaises(Apply(jobs, payload[0]), payload[1..]);
    }
  }

  // ------------------------------------------------------------ which entries take effect

  /** The entries before the first one that raises. */
  function Effective(jobs: Jobs, payload: seq<Reading>): (r: seq<Reading>)
    ensures r <= payload
    ensures !Handle(jobs, payload).raised ==> r == payload
    decreases |payload|
  {
    if payload == [] || Raises(jobs, payload[0].change) then []
    else [payload[0]] + Effective(Apply(jobs, payload[0]), payload[1..])
  }

  /** Over all passes: of each visible payload the entries before its raising one. */
  function DrainedEntries(jobs: Jobs, instCode: Code, log: seq<Received>): (r: seq<Reading>)
    decreases |log|
  {
    if log == [] then []
    else
      (if log[0].source == instCode then [] else Effective(jobs, log[0].payload))
      + DrainedEntries(HandleMessage(jobs, instCode, log[0]).jobs, instCode, log[1..])
  }

  lemma {:induction false} HandledIsEffective(jobs: Jobs, payload: seq<Reading>)
    ensures Handle(jobs, payload).jobs == ApplyAll(jobs, Effective(jobs, payload))
    decreases |payload|
  {
    if payload != [] && !Raises(jobs, payload[0].change) {
      var rest := Effective(Apply(jobs, payload[0]), payload[1..]);
      HandledIsEffective(Apply(jobs, payload[0]), payload[1..]);
      assert ([payload[0]] + rest)[1..] == rest;
    }
  }

  /** What is left after draining a log is what its drained entries leave. */
  lemma {:induction false} DrainedIsEffective(jobs: Jobs, instCode: Code, log: seq<Received>)
    ensures Drain(jobs, instCode, log) == ApplyAll(jobs, DrainedEntries(jobs, instCode, log))
    decreases |log|
  {
    if log != [] {
      var next := HandleMessage(jobs, instCode, log[0]).jobs;
      var first := if log[0].source == instCode then [] else Effective(jobs, log[0].payload);
      HandledIsEffective(jobs, log[0].payload);
      assert next == ApplyAll(jobs, first);
      DrainedIsEffective(next, instCode, log[1..]);
      ApplyAllConcat(jobs, first, DrainedEntries(next, instCode, log[1..]));
    }
  }

  // ------------------------------------------------------------ the environment

  class Environment {
    const instCode: Code
    var jobs: Jobs
    var windowOffset: nat  // one past the last message handled to its end
    var position: nat      // of the Kafka consumer: it has moved past every message it gave out

    constructor (instCode: Code, jobs: Jobs, start: nat)
      ensures this.instCode == instCode && this.jobs == jobs && windowOffset == start && position == start
    {
      this.instCode := instCode;
      this.jobs := jobs;
      windowOffset := start;
      position := start;
    }

    method CreateJobHandler(code: Code, e: Encoding, ghost horizonEnd: int)
      modifies this`jobs
      ensures jobs == Apply(old(jobs), Reading(CreateJob(code, e), horizonEnd))
      ensures jobs == if code !in old(jobs) && e.Encoded? then old(jobs)[code := e.plan] else old(jobs)
    {
      if code in jobs { return; }
      match e
      case Invalid => return;
      case Fails => return;  // caught
      case Encoded(p) => jobs := jobs[code := p];
    }

    method RescheduleHandler(code: Code, e: Encoding, ghost horizonEnd: int) returns (raised: bool)
      modifies this`jobs
      ensures raised <==> Raises(old(jobs), RescheduleJob(code, e))
      ensures jobs == Apply(old(jobs), Reading(RescheduleJob(code, e), horizonEnd))
      ensures raised <==> code in old(jobs) && !e.Encoded?
      ensures jobs == if code in old(jobs) && e.Encoded? && e.plan.triple != old(jobs)[code].triple then old(jobs)[code := e.plan] else old(jobs)
    {
      raised := false;
      if code !in jobs { return; }
      if !e.Encoded? { return true; }
      var curr, p := jobs[code], e.plan;
      var toReschedule := false;
      if curr.triple.status != p.triple.status
         || curr.triple.start != p.triple.start
         || curr.triple.workers != p.triple.workers {
        toReschedule := true;
      }
      if toReschedule {
        jobs := jobs[code := Plan(Triple(p.triple.status, p.triple.start, p.triple.workers), p.duration)];
      }
      assert !toReschedule ==> jobs == jobs[code := curr];
    }

    method UpdateHandler(code: Code, e: Encoding, start: Start, horizonEnd: int) returns (raised: bool)
      modifies this`jobs
      ensures raised <==> Raises(old(jobs), UpdateJob(code, e, start))
      ensures jobs == Apply(old(jobs), Reading(UpdateJob(code, e, start), horizonEnd))
      ensures raised <==> if code in old(jobs) then e.Fails? else start.Unreadable?
      ensures code !in old(jobs) ==>
        && (code in jobs <==> e.Encoded? && start.At? && start.minutes < horizonEnd)
        && (code in jobs ==> jobs == old(jobs)[code := e.plan])
        && (code !in jobs ==> jobs == old(jobs))
      ensures code in old(jobs) ==>
        jobs == if e.Encoded? && e.plan.triple != old(jobs)[code].triple then old(jobs)[code := e.plan] else old(jobs)
    {
      raised := false;
      if code !in jobs {
        match start {
          case At(minutes) =>
            if minutes < horizonEnd { CreateJobHandler(code, e, horizonEnd); }
          case Unstated =>  // a missing key is caught
          case Unreadable => raised := true;
        }
        return;
      }
      if e.Fails? { return true; }
      if e.Invalid? { return; }
      raised := RescheduleHandler(code, e, horizonEnd);
    }

    method RefreshHandler(code: Code, p: Plan, ghost horizonEnd: int)
      modifies this`jobs
      ensures jobs == Apply(old(jobs), Reading(RefreshJob(code, p), horizonEnd))
      ensures jobs == if code in old(jobs) then old(jobs)[code := p] else old(jobs)
    {
      if code !in jobs { return; }
      jobs := jobs[code := p];
    }

    /** The handler for one entry; the horizon is worked out when it is needed. */
    method ApplyHandler(c: Change, horizonEnd: int) returns (raised: bool)
      modifies this`jobs
      ensures raised <==> Raises(old(jobs), c)
      ensures jobs == if raised then old(jobs) else Apply(old(jobs), Reading(c, horizonEnd))
      ensures c.NoCode? ==> jobs == old(jobs) && !raised
    {
      raised := false;
      match c {
        case CreateJob(code, e) => CreateJobHandler(code, e, horizonEnd);
        case UpdateJob(code, e, start) => raised := UpdateHandler(code, e, start, horizonEnd);
        case RescheduleJob(code, e) => raised := RescheduleHandler(code, e, horizonEnd);
        case RefreshJob(code, p) => RefreshHandler(code, p, horizonEnd);
        case NoCode =>
      }
    }

    /** Applies the payload entry by entry; own messages are skipped. */
    method ProcessEnvMessage(m: Message, ends: nat -> int) returns (raised: bool)
      modifies this`jobs
      ensures Handled(jobs, raised) == HandleMessage(old(jobs), instCode, Received(m.source, Dated(m.payload, ends)))
      ensures m.source == instCode ==> jobs == old(jobs) && !raised
    {
      raised := false;
      if m.source == instCode { return; }
      ghost var payload := Dated(m.payload, ends);
      var i := 0;
      while i < |m.payload|
        invariant 0 <= i <= |m.payload|
        invariant Handle(jobs, payload[i..]) == Handle(old(jobs), payload)
      {
        assert payload[i..][1..] == payload[i + 1..];
        raised := ApplyHandler(m.payload[i], ends(i));
        if raised { return; }
        i := i + 1;
      }
    }

    /** One pass over the log from where the consumer stands; an exception ends it behind its message. */
    method ConsumeEnvMessages(log: seq<Message>, clock: Clock) returns (raised: bool)
      requires position <= |log|
      modifies this
      ensures Passed(Handled(jobs, raised), position) == PassFrom(old(jobs), instCode, ReceivedBy(clock, log), old(position))
      ensures var done := position - (if raised then 1 else 0);
        windowOffset == if done > old(position) then done else old(windowOffset)
    {
      raised := false;
      ghost var start, received := position, ReceivedBy(clock, log);
      while position < |log|
        invariant start <= position <= |log|
        invariant PassFrom(jobs, instCode, received, position) == PassFrom(old(jobs), instCode, received, start)
        invariant windowOffset == if position > start then position else old(windowOffset)
      {
        PassOne(jobs, instCode, received, position);
        var msg, ends := log[position], EndsOf(clock, position);
        position := position + 1;
        raised := ProcessEnvMessage(msg, ends);
        if raised { return; }
        windowOffset := position;
      }
    }
  }
}
