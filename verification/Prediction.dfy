/**
 The heuristic agent's answer for one job: it searches worker candidates in order until it has
 enough recommendations, and ranks what it found by score. For each group of free slots it reads
 the slots again, adds the job, makes room if it must, and checks the rules.
 */
module Prediction {
  import opened Common
  import opened StableSort
  import opened Unplanning

  datatype Info = Info(priority: int, scheduledStart: int)

  /** A working slot as Redis has it. */
  datatype SlotData = SlotData(jobs: seq<Code>, startMinutes: int, endMinutes: int)

  /**
   A group of free slots, the time in which they all meet, and the jobs of the customer's
   available slot that goes with them.
   */
  datatype Group = Group(id: nat, slotCodes: seq<Code>, startMinutes: int, endMinutes: int, customerJobs: seq<Code>)

  /**
   What the search works on: the job, the known jobs, the slots that Redis has, and the parts it
   calls for a group: the dispatcher, where it puts the job, and the travel score of the slots
   before and after. They know the group, and so the places and times of its slots; the job lists
   are what the search changes. The rules see the action.
   */
  datatype Search = Search(
    job: Code,
    jobs: map<Code, Info>,
    redis: map<Code, SlotData>,
    attemptUnplan: bool,
    allowOvertime: bool,
    dispatch: (Group, Slots) -> bool,
    startOf: (Group, Slots) -> Option<int>,
    passesRules: (seq<Code>, int, seq<Code>) -> bool,
    travelScore: (Group, Slots, Slots) -> real)

  /** One list of workers and the groups of free slots found for it. */
  datatype Candidate = Candidate(workers: seq<Code>, groups: seq<Group>)

  datatype Plan = Plan(workers: seq<Code>, group: nat, startMinutes: int, unplanned: seq<Code>)

  /** A recommended action; its score is the key it is ranked by. */
  type Action = Keyed<real, Plan>

  // ------------------------------------------------------------ one group

  /** The job lists of those slots of the group that Redis still has. */
  function Found(redis: map<Code, SlotData>, slotCodes: seq<Code>): (r: seq<seq<Code>>) {
    if slotCodes == [] then []
    else Found(redis, Init(slotCodes)) + (if Last(slotCodes) in redis then [redis[Last(slotCodes)].jobs] else [])
  }

  function StartKey(s: Search, code: Code): Keyed<int, Code> {
    Keyed(StartOf(s, code), code)
  }

  predicate EarlierFirst(a: int, b: int) {
    a <= b
  }

  function ByStart(s: Search, codes: seq<Code>): (r: seq<Keyed<int, Code>>) {
    Sort(seq(|codes|, i requires 0 <= i < |codes| => StartKey(s, codes[i])), EarlierFirst)
  }

  /** A slot's jobs by their scheduled start, with the job being placed behind them. */
  function Prepared(s: Search, codes: seq<Code>): (r: seq<Code>) {
    var sorted := ByStart(s, codes);
    seq(|sorted|, i requires 0 <= i < |sorted| => sorted[i].value) + [s.job]
  }

  function PreparedAll(s: Search, lists: seq<seq<Code>>): (r: seq<seq<Code>>)
    ensures |r| == |lists| && forall i :: 0 <= i < |lists| ==> r[i] == Prepared(s, lists[i])
  {
    seq(|lists|, i requires 0 <= i < |lists| => Prepared(s, lists[i]))
  }

  /** The slots of the group as they are; the customer's slot stands behind the workers' ones. */
  function SharedLists(s: Search, g: Group): seq<seq<Code>> {
    Found(s.redis, g.slotCodes) + [g.customerJobs]
  }

  /** The slots the dispatcher is given: all prepared, and a slot with just the job. */
  function StartLists(s: Search, g: Group): seq<seq<Code>> {
    PreparedAll(s, SharedLists(s, g)) + [[s.job]]
  }

  function Start(s: Search, g: Group): Slots {
    FromLists(StartLists(s, g))
  }

  lemma {:induction false} FoundConcat(redis: map<Code, SlotData>, a: seq<Code>, b: seq<Code>)
    ensures Found(redis, a + b) == Found(redis, a) + Found(redis, b)
  {
    if b == [] {
      assert a + b == a;
    } else {
      assert Init(a + b) == a + Init(b);
      FoundConcat(redis, a, Init(b));
      Associate(Found(redis, a), Found(redis, Init(b)), if Last(b) in redis then [redis[Last(b)].jobs] else []);
    }
  }

  /** In the place of each slot code stand the jobs Redis has for it, and nothing if Redis has no such slot. */
  lemma FoundInOrder(redis: map<Code, SlotData>, a: seq<Code>, code: Code, b: seq<Code>)
    ensures Found(redis, a + [code] + b) == Found(redis, a) + (if code in redis then [redis[code].jobs] else []) + Found(redis, b)
    ensures Found(redis, []) == []
  {
    FoundConcat(redis, a + [code], b);
    FoundConcat(redis, a, [code]);
    assert Init([code]) == [];
  }

  function Values(keyed: seq<Keyed<int, Code>>): (r: seq<Code>)
    ensures |r| == |keyed| && forall i :: 0 <= i < |keyed| ==> r[i] == keyed[i].value
  {
    seq(|keyed|, i requires 0 <= i < |keyed| => keyed[i].value)
  }

  lemma ValuesSnoc(keyed: seq<Keyed<int, Code>>, x: Keyed<int, Code>)
    ensures multiset(Values(keyed + [x])) == multiset(Values(keyed)) + multiset{x.value}
  {
    assert Values(keyed + [x]) == Values(keyed) + [x.value];
  }

  lemma {:induction false} InsertValues(keyed: seq<Keyed<int, Code>>, x: Keyed<int, Code>)
    ensures multiset(Values(Insert(keyed, x, EarlierFirst))) == multiset(Values(keyed)) + multiset{x.value}
  {
    ValuesSnoc(keyed, x);
    if keyed == [] {
      assert keyed + [x] == [x];
    } else if !EarlierFirst(Last(keyed).key, x.key) {
      InsertValues(Init(keyed), x);
      ValuesSnoc(Insert(Init(keyed), x, EarlierFirst), Last(keyed));
      ValuesSnoc(Init(keyed), Last(keyed));
      assert keyed == Init(keyed) + [Last(keyed)];
    }
  }

  lemma {:induction false} SortValues(keyed: seq<Keyed<int, Code>>)
    ensures multiset(Values(Sort(keyed, EarlierFirst))) == multiset(Values(keyed))
  {
    if keyed != [] {
      SortValues(Init(keyed));
      InsertValues(Sort(Init(keyed), EarlierFirst), Last(keyed));
      ValuesSnoc(Init(keyed), Last(keyed));
      assert keyed == Init(keyed) + [Last(keyed)];
    }
  }

  function StartOf(s: Search, code: Code): int {
    if code in s.jobs then s.jobs[code].scheduledStart else 0
  }

  lemma {:induction false} SortedByStart(s: Search, keyed: seq<Keyed<int, Code>>)
    requires forall x :: x in keyed ==> x.key == StartOf(s, x.value)
    ensures forall x :: x in Sort(keyed, EarlierFirst) ==> x.key == StartOf(s, x.value)
  {
    IntsAreOrdered();
    forall x | x in Sort(keyed, EarlierFirst) ensures x.key == StartOf(s, x.value) {
      SortKeepsMembers(keyed, EarlierFirst, x);
    }
  }

  /** A prepared slot: its own jobs, none earlier than the one before it, and the job being placed at the end. */
  lemma PreparedIsInOrder(s: Search, codes: seq<Code>)
    ensures var p := Prepared(s, codes);
      && |p| == |codes| + 1 && Last(p) == s.job && multiset(Init(p)) == multiset(codes)
      && forall i, j :: 0 <= i < j < |codes| ==> StartOf(s, p[i]) <= StartOf(s, p[j])
  {
    var keyed := seq(|codes|, i requires 0 <= i < |codes| => StartKey(s, codes[i]));
    var sorted := Sort(keyed, EarlierFirst);
    var p := Prepared(s, codes);
    IntsAreOrdered();
    SortValues(keyed);
    SortIsSorted(keyed, EarlierFirst);
    SortIsPermutation(keyed, EarlierFirst);
    SortedByStart(s, keyed);
    assert |multiset(sorted)| == |multiset(keyed)|;
    assert Values(keyed) == codes && Init(p) == Values(sorted);
    forall i, j | 0 <= i < j < |codes| ensures StartOf(s, p[i]) <= StartOf(s, p[j]) {
      assert sorted[i] in sorted && sorted[j] in sorted;
      assert EarlierFirst(sorted[i].key, sorted[j].key);
    }
  }

  /**
   What the dispatcher is given: the slots that Redis has, in the group's order, and the customer's
   slot, all prepared, and a slot with just the job.
   */
  lemma StartListsAre(s: Search, g: Group)
    ensures var n, lists := |Found(s.redis, g.slotCodes)|, StartLists(s, g);
      && |lists| == n + 2 && lists[n] == Prepared(s, g.customerJobs) && lists[n + 1] == [s.job]
      && forall i :: 0 <= i < n ==> lists[i] == Prepared(s, Found(s.redis, g.slotCodes)[i])
  {
  }

  function Priorities(jobs: map<Code, Info>): map<Code, int> {
    map c | c in jobs :: jobs[c].priority
  }

  function CurrPriority(s: Search): int {
    if s.job in s.jobs then s.jobs[s.job].priority else 0
  }

  function LowOf(s: Search): set<Code> {
    Lower(Priorities(s.jobs), CurrPriority(s))
  }

  /** The dispatcher for one group. */
  function DispatchOf(s: Search, g: Group): Slots -> bool {
    (slots: Slots) => s.dispatch(g, slots)
  }

  /** How many jobs the group has to give up. */
  function RemovalsOf(s: Search, g: Group): (k: nat)
    ensures k <= |Order(Start(s, g), LowOf(s))|
  {
    Removals(Start(s, g), LowOf(s), s.attemptUnplan, DispatchOf(s, g))
  }

  function Left(s: Search, g: Group): Slots {
    After(Start(s, g), LowOf(s), RemovalsOf(s, g))
  }

  function Given(s: Search, g: Group): seq<Code> {
    Order(Start(s, g), LowOf(s))[..RemovalsOf(s, g)]
  }

  /** Every job unplanned costs half a point, and a search that allows overtime costs two. */
  function Score(s: Search, g: Group): real {
    s.travelScore(g, FromLists(SharedLists(s, g)), Left(s, g)) - |Given(s, g)| as real * 0.5 - (if s.allowOvertime then 2.0 else 0.0)
  }

  /** The travel part of an action's score: the key without what unplanning and overtime cost. */
  function TravelPart(s: Search, x: Action): real {
    x.key + 0.5 * |x.value.unplanned| as real + (if s.allowOvertime then 2.0 else 0.0)
  }

  /** What the group comes to: an action, or nothing. */
  function Outcome(s: Search, workers: seq<Code>, g: Group): (r: Option<Action>) {
    if Found(s.redis, g.slotCodes) == [] then None
    else if !s.dispatch(g, Left(s, g)) then None
    else if s.startOf(g, Left(s, g)).None? then None
    else if !s.passesRules(workers, s.startOf(g, Left(s, g)).value, Given(s, g)) then None
    else Some(Keyed(Score(s, g), Plan(workers, g.id, s.startOf(g, Left(s, g)).value, Given(s, g))))
  }

  /** The action makes the least room that contents the dispatcher, and is placed and checked accordingly. */
  ghost predicate LeastRoom(s: Search, workers: seq<Code>, g: Group, x: Action) {
    var start, low, k := Start(s, g), LowOf(s), |x.value.unplanned|;
    && x.value.workers == workers && x.value.group == g.id
    && k <= |Order(start, low)| && x.value.unplanned == Order(start, low)[..k]
    && RefusedUpTo(start, low, DispatchOf(s, g), k) && s.dispatch(g, After(start, low, k))
    && s.startOf(g, After(start, low, k)) == Some(x.value.startMinutes)
    && s.passesRules(workers, x.value.startMinutes, x.value.unplanned)
    && (!s.attemptUnplan ==> k == 0)
  }

  /** The key is the travel score of the slots before and after, less half a point for each job unplanned, and two for overtime. */
  predicate Scored(s: Search, g: Group, x: Action) {
    x.key + 0.5 * |x.value.unplanned| as real + (if s.allowOvertime then 2.0 else 0.0)
      == s.travelScore(g, FromLists(SharedLists(s, g)), After(Start(s, g), LowOf(s), |x.value.unplanned|))
  }

  /** Only jobs of lower priority are unplanned, and so never the job itself. */
  predicate UnplansOnlyLower(s: Search, x: Action) {
    && s.job !in x.value.unplanned
    && forall j :: j in x.value.unplanned ==>
         j in s.jobs && s.jobs[j].priority < (if s.job in s.jobs then s.jobs[s.job].priority else 0)
  }

  /** The action keeps to the group: least room made, of lower priority only, dispatched, placed, scored, and within the rules. */
  ghost predicate Sound(s: Search, workers: seq<Code>, g: Group, x: Action) {
    LeastRoom(s, workers, g, x) && Scored(s, g, x) && UnplansOnlyLower(s, x)
  }

  lemma OutcomeMakesLeastRoom(s: Search, workers: seq<Code>, g: Group)
    requires Outcome(s, workers, g).Some?
    ensures LeastRoom(s, workers, g, Outcome(s, workers, g).value)
    ensures Outcome(s, workers, g).value.value.unplanned == Given(s, g) && |Given(s, g)| == RemovalsOf(s, g)
  {
    if s.attemptUnplan { TriesAreLeast(Start(s, g), LowOf(s), DispatchOf(s, g), 0); }
  }

  lemma OutcomeIsScored(s: Search, workers: seq<Code>, g: Group)
    requires Outcome(s, workers, g).Some? && |Given(s, g)| == RemovalsOf(s, g)
    ensures Scored(s, g, Outcome(s, workers, g).value)
  {
    assert Outcome(s, workers, g).value.key == Score(s, g);
  }

  lemma GivenAreLower(s: Search, g: Group, x: Action)
    requires x.value.unplanned <= Order(Start(s, g), LowOf(s))
    ensures UnplansOnlyLower(s, x)
  {
    OrderIsOfLowerPriority(Start(s, g), Priorities(s.jobs), CurrPriority(s));
    forall j | j in x.value.unplanned ensures j in Order(Start(s, g), LowOf(s)) {
      var i :| 0 <= i < |x.value.unplanned| && x.value.unplanned[i] == j;
      assert Order(Start(s, g), LowOf(s))[i] == j;
    }
  }

  /**
   A recommendation carries the shortest sufficient prefix of its group's order, which holds jobs
   of lower priority only, and is scored by travel less half a point for each of them.
   */
  lemma OutcomeIsSound(s: Search, workers: seq<Code>, g: Group)
    requires Outcome(s, workers, g).Some?
    ensures Sound(s, workers, g, Outcome(s, workers, g).value)
  {
    OutcomeMakesLeastRoom(s, workers, g);
    OutcomeIsScored(s, workers, g);
    GivenAreLower(s, g, Outcome(s, workers, g).value);
  }

  /** And every sound action of a group that has slots is the one the search comes to. */
  lemma OutcomeIffSound(s: Search, workers: seq<Code>, g: Group, x: Action)
    ensures Outcome(s, workers, g) == Some(x) <==> Found(s.redis, g.slotCodes) != [] && Sound(s, workers, g, x)
  {
    if Outcome(s, workers, g) == Some(x) { OutcomeIsSound(s, workers, g); }
    if Found(s.redis, g.slotCodes) != [] && Sound(s, workers, g, x) {
      var k := |x.value.unplanned|;
      if s.attemptUnplan { TriesStopAt(Start(s, g), LowOf(s), DispatchOf(s, g), 0, k); }
      assert RemovalsOf(s, g) == k;
      assert x.key == Score(s, g);
    }
  }

  /**
   With a dispatcher that never fails because jobs were taken out, and unplanning on, a group that
   has slots is dropped by the dispatcher if and only if its slots stripped of all lower-priority
   jobs are infeasible.
   */
  lemma DroppedIffStrippedFails(s: Search, g: Group)
    requires s.attemptUnplan && Monotone(DispatchOf(s, g))
    ensures s.dispatch(g, Left(s, g)) <==> s.dispatch(g, Stripped(Start(s, g), LowOf(s)))
  {
    TriesAreLeast(Start(s, g), LowOf(s), DispatchOf(s, g), 0);
    FailureIsFinal(Start(s, g), LowOf(s), DispatchOf(s, g), RemovalsOf(s, g));
  }

  /** All jobs of the group are known. */
  ghost predicate Known(s: Search, g: Group) {
    && s.job in s.jobs
    && forall list, x :: list in SharedLists(s, g) && x in list ==> x in s.jobs
  }

  lemma IntsAreOrdered()
    ensures TotalOrder(EarlierFirst)
  {
  }

  lemma PreparedMembers(s: Search, codes: seq<Code>, x: Code)
    requires x in Prepared(s, codes)
    ensures x in codes || x == s.job
  {
    var keyed := seq(|codes|, i requires 0 <= i < |codes| => StartKey(s, codes[i]));
    var sorted := ByStart(s, codes);
    if x != s.job {
      var i :| 0 <= i < |sorted| && sorted[i].value == x;
      IntsAreOrdered();
      SortKeepsMembers(keyed, EarlierFirst, sorted[i]);
      var j :| 0 <= j < |keyed| && keyed[j] == sorted[i];
      assert codes[j] == x;
    }
  }

  /** The copied slots of a group, one new object each. */
  method MakeSlots(lists: seq<seq<Code>>) returns (slots: seq<TimeSlot>)
    ensures |slots| == |lists| && fresh(slots) && Lists(slots) == lists
    ensures forall p, q :: 0 <= p < q < |slots| ==> slots[p] != slots[q]
  {
    slots := [];
    for i := 0 to |lists|
      invariant |slots| == i && fresh(slots)
      invariant forall p :: 0 <= p < i ==> slots[p].assignedJobCodes == lists[p]
      invariant forall p, q :: 0 <= p < q < i ==> slots[p] != slots[q]
    {
      var slot := new TimeSlot(lists[i]);
      slots := slots + [slot];
    }
  }

  /** Dispatch the group's slots, making room. */
  method DispatchGroup(s: Search, g: Group) returns (ok: bool, left: Slots, unplanned: seq<Code>)
    requires Known(s, g)
    ensures left == Left(s, g) && unplanned == Given(s, g) && ok == s.dispatch(g, left)
  {
    var slots := MakeSlots(StartLists(s, g));
    assert Listed(slots, Priorities(s.jobs)) by { AllListed(s, g); }
    assert View(slots) == Start(s, g);
    ok, unplanned := UnplanUntilFeasible(slots, Priorities(s.jobs), CurrPriority(s), s.attemptUnplan, DispatchOf(s, g));
    left := View(slots);
    LeftAndGiven(s, g, left, unplanned);
  }

  lemma LeftAndGiven(s: Search, g: Group, left: Slots, unplanned: seq<Code>)
    requires Progress(Start(s, g), LowOf(s), DispatchOf(s, g), unplanned, left) && |unplanned| == RemovalsOf(s, g)
    ensures left == Left(s, g) && unplanned == Given(s, g)
  {
  }

  /** One group: read its slots, dispatch while making room, look the start up, check the rules. */
  method SearchGroup(s: Search, workers: seq<Code>, g: Group) returns (r: Option<Action>)
    requires Known(s, g)
    ensures r == Outcome(s, workers, g)
    ensures r.Some? ==>
      && r.value.key + 0.5 * |r.value.value.unplanned| as real + (if s.allowOvertime then 2.0 else 0.0)
           == s.travelScore(g, FromLists(SharedLists(s, g)), Left(s, g))
      && s.dispatch(g, Left(s, g)) && r.value.value.unplanned == Given(s, g)
      && forall j :: j in r.value.value.unplanned ==> j in s.jobs && s.jobs[j].priority < s.jobs[s.job].priority
  {
    if Outcome(s, workers, g).Some? { OutcomeIsSound(s, workers, g); }
    if Found(s.redis, g.slotCodes) == [] {
      return None;
    }
    var ok, left, unplanned := DispatchGroup(s, g);
    if !ok {
      return None;
    }
    var startMinutes := s.startOf(g, left);
    if startMinutes.None? {
      return None;
    }
    if !s.passesRules(workers, startMinutes.value, unplanned) {
      return None;
    }
    var totalScore := s.travelScore(g, FromLists(SharedLists(s, g)), left) - |unplanned| as real * 0.5;
    if s.allowOvertime {
      totalScore := totalScore - 2.0;
    }
    return Some(Keyed(totalScore, Plan(workers, g.id, startMinutes.value, unplanned)));
  }

  lemma AllListed(s: Search, g: Group)
    requires Known(s, g)
    ensures forall i, x :: 0 <= i < |StartLists(s, g)| && x in StartLists(s, g)[i] ==> x in Priorities(s.jobs)
  {
    var shared, lists := SharedLists(s, g), StartLists(s, g);
    forall i, x | 0 <= i < |lists| && x in lists[i] ensures x in s.jobs {
      if i < |shared| {
        PreparedMembers(s, shared[i], x);
        assert shared[i] in shared;
      }
    }
  }

  // ------------------------------------------------------------ one candidate

  /** What the groups of a candidate come to. */
  function Outcomes(s: Search, c: Candidate): (r: seq<Option<Action>>)
    ensures |r| == |c.groups|
    ensures forall i :: 0 <= i < |c.groups| ==> r[i] == Outcome(s, c.workers, c.groups[i])
  {
    seq(|c.groups|, i requires 0 <= i < |c.groups| => Outcome(s, c.workers, c.groups[i]))
  }

  /** The actions among them, in order. */
  function Actions(outcomes: seq<Option<Action>>): (r: seq<Action>) {
    if outcomes == [] then []
    else Actions(Init(outcomes)) + (if Last(outcomes).Some? then [Last(outcomes).value] else [])
  }

  /** What a search limited to n results can return; it looks at the limit after adding one. */
  function Limited(actions: seq<Action>, n: int): (r: seq<Action>) {
    var most := if n < 1 then 1 else n;
    if |actions| <= most then actions else actions[..most]
  }

  function FoundBy(s: Search, c: Candidate, n: int): (r: seq<Action>) {
    Limited(Actions(Outcomes(s, c)), n)
  }

  /** The search gives the first results of the candidate: n of them, or all; the first one even where n is less than one. */
  lemma FoundByIs(s: Search, c: Candidate, n: int)
    ensures FoundBy(s, c, n) <= Actions(Outcomes(s, c))
    ensures |FoundBy(s, c, n)| <= 1 || |FoundBy(s, c, n)| <= n
    ensures FoundBy(s, c, n) == Actions(Outcomes(s, c)) || (|FoundBy(s, c, n)| >= 1 && |FoundBy(s, c, n)| >= n)
  {
  }

  function AllFound(s: Search, candidates: seq<Candidate>, n: int): (r: seq<Action>) {
    if candidates == [] then [] else AllFound(s, Init(candidates), n) + FoundBy(s, Last(candidates), n)
  }

  lemma ActionsSnoc(outcomes: seq<Option<Action>>, i: nat)
    requires i < |outcomes|
    ensures Actions(outcomes[..i + 1]) == Actions(outcomes[..i]) + (if outcomes[i].Some? then [outcomes[i].value] else [])
  {
    assert Init(outcomes[..i + 1]) == outcomes[..i];
  }

  lemma {:induction false} ActionsGrow(outcomes: seq<Option<Action>>, i: nat)
    requires i <= |outcomes|
    ensures Actions(outcomes[..i]) <= Actions(outcomes)
    decreases |outcomes|
  {
    if i < |outcomes| {
      ActionsGrow(Init(outcomes), i);
      assert Init(outcomes)[..i] == outcomes[..i];
    } else {
      assert outcomes[..i] == outcomes;
    }
  }

  /** After i outcomes, what a search limited to n results has, if it has not stopped. */
  predicate SoFar(outcomes: seq<Option<Action>>, i: nat, n: int, found: seq<Action>) {
    i <= |outcomes| && found == Actions(outcomes[..i]) && (found == [] || |found| < n)
  }

  /** It goes on to the next outcome, and may stop as soon as it has enough. */
  lemma OneMoreOutcome(outcomes: seq<Option<Action>>, i: nat, n: int, found: seq<Action>)
    requires SoFar(outcomes, i, n, found) && i < |outcomes|
    ensures outcomes[i].None? ==> SoFar(outcomes, i + 1, n, found)
    ensures outcomes[i].Some? ==>
      var now := found + [outcomes[i].value];
      if |now| >= n then Limited(Actions(outcomes), n) == now else SoFar(outcomes, i + 1, n, now)
  {
    ActionsSnoc(outcomes, i);
    ActionsGrow(outcomes, i + 1);
  }

  lemma AllOutcomes(outcomes: seq<Option<Action>>, n: int, found: seq<Action>)
    requires SoFar(outcomes, |outcomes|, n, found)
    ensures Limited(Actions(outcomes), n) == found
  {
    assert outcomes[..|outcomes|] == outcomes;
  }

  ghost predicate CandidateKnown(s: Search, c: Candidate) {
    forall i :: 0 <= i < |c.groups| ==> Known(s, c.groups[i])
  }

  ghost predicate AllKnown(s: Search, candidates: seq<Candidate>) {
    forall i :: 0 <= i < |candidates| ==> CandidateKnown(s, candidates[i])
  }

  /** Goes through the groups of one candidate and stops once it has n results. */
  method SearchOnWorkers(s: Search, c: Candidate, maxNumberOfMatching: int) returns (resultSlot: seq<Action>)
    requires CandidateKnown(s, c)
    ensures resultSlot == FoundBy(s, c, maxNumberOfMatching)
  {
    ghost var outcomes := Outcomes(s, c);
    resultSlot := [];
    var i := 0;
    while i < |c.groups|
      invariant 0 <= i <= |c.groups|
      invariant SoFar(outcomes, i, maxNumberOfMatching, resultSlot)
    {
      var outcome := SearchGroup(s, c.workers, c.groups[i]);
      assert outcome == outcomes[i];
      OneMoreOutcome(outcomes, i, maxNumberOfMatching, resultSlot);
      if outcome.Some? {
        resultSlot := resultSlot + [outcome.value];
        if |resultSlot| >= maxNumberOfMatching {
          return;
        }
      }
      i := i + 1;
    }
    AllOutcomes(outcomes, maxNumberOfMatching, resultSlot);
  }

  // ------------------------------------------------------------ all candidates

  predicate HigherFirst(a: real, b: real) {
    a >= b
  }

  /** The search stops at the first point where there are n results. */
  ghost predicate StopsAt(s: Search, candidates: seq<Candidate>, n: int, m: nat) {
    && m <= |candidates|
    && (m == |candidates| || |AllFound(s, candidates[..m], n)| >= n)
    && (forall k: nat :: k < m ==> |AllFound(s, candidates[..k], n)| < n)
  }

  lemma AllFoundSnoc(s: Search, candidates: seq<Candidate>, n: int, m: nat)
    requires m < |candidates|
    ensures AllFound(s, candidates[..m + 1], n) == AllFound(s, candidates[..m], n) + FoundBy(s, candidates[m], n)
  {
    assert Init(candidates[..m + 1]) == candidates[..m];
  }

  /** What is found is in the order of the candidates, and for one candidate in the order of its groups. */
  lemma {:induction false} AllFoundInOrder(s: Search, a: seq<Candidate>, b: seq<Candidate>, n: int)
    ensures AllFound(s, a + b, n) == AllFound(s, a, n) + AllFound(s, b, n)
  {
    if b == [] {
      assert a + b == a;
    } else {
      assert Init(a + b) == a + Init(b);
      AllFoundInOrder(s, a, Init(b), n);
      Associate(AllFound(s, a, n), AllFound(s, Init(b), n), FoundBy(s, Last(b), n));
    }
  }

  lemma {:induction false} ActionsInOrder(a: seq<Option<Action>>, b: seq<Option<Action>>)
    ensures Actions(a + b) == Actions(a) + Actions(b)
  {
    if b == [] {
      assert a + b == a;
    } else {
      assert Init(a + b) == a + Init(b);
      ActionsInOrder(a, Init(b));
      Associate(Actions(a), Actions(Init(b)), if Last(b).Some? then [Last(b).value] else []);
    }
  }

  /** Some group of a searched candidate gave the action, and it is sound for that group. */
  ghost predicate Recommended(s: Search, candidates: seq<Candidate>, x: Action) {
    exists c, g :: c in candidates && g in c.groups && Sound(s, c.workers, g, x)
  }

  /** Searches candidates in order until n actions are found. */
  method SearchCandidates(s: Search, candidates: seq<Candidate>, nbrOfActions: int) returns (actions: seq<Action>, searched: nat)
    requires AllKnown(s, candidates)
    ensures StopsAt(s, candidates, nbrOfActions, searched)
    ensures actions == AllFound(s, candidates[..searched], nbrOfActions)
  {
    actions, searched := [], 0;
    while searched < |candidates|
      invariant 0 <= searched <= |candidates|
      invariant actions == AllFound(s, candidates[..searched], nbrOfActions)
      invariant forall k: nat :: k < searched ==> |AllFound(s, candidates[..k], nbrOfActions)| < nbrOfActions
    {
      if |actions| >= nbrOfActions {
        break;
      }
      AllFoundSnoc(s, candidates, nbrOfActions, searched);
      var more := SearchOnWorkers(s, candidates[searched], nbrOfActions);
      actions := actions + more;
      searched := searched + 1;
    }
  }

  /** The search and then the ranking, best first. */
  method PredictActions(s: Search, candidates: seq<Candidate>, nbrOfActions: int) returns (result: seq<Action>, ghost searched: nat)
    requires AllKnown(s, candidates)
    ensures StopsAt(s, candidates, nbrOfActions, searched)
    ensures Sorted(result, HigherFirst)
    ensures SameByKey(result, AllFound(s, candidates[..searched], nbrOfActions))
    ensures multiset(result) == multiset(AllFound(s, candidates[..searched], nbrOfActions))
    ensures nbrOfActions >= 1 ==> |result| <= 2 * nbrOfActions - 1
    ensures nbrOfActions <= 0 ==> result == []
    ensures forall x :: x in result ==> Recommended(s, candidates[..searched], x)
    ensures forall i, j :: 0 <= i < j < |result| ==> result[i].key >= result[j].key
    ensures FewerUnplannedFirst(s, result)
  {
    var actions, m := SearchCandidates(s, candidates, nbrOfActions);
    searched := m;
    SizeWhereItStops(s, candidates, nbrOfActions, m);
    result := Sort(actions, HigherFirst);
    RankingIsSound(s, candidates[..searched], nbrOfActions);
    RankingPrefersFewer(s, result);
  }

  /** Of two results with the same travel score, the one that unplans fewer jobs stands ahead. */
  predicate FewerUnplannedFirst(s: Search, result: seq<Action>) {
    forall i, j ::
      (&& 0 <= i < |result| && 0 <= j < |result|
       && TravelPart(s, result[i]) == TravelPart(s, result[j])
       && |result[i].value.unplanned| < |result[j].value.unplanned|) ==> i < j
  }

  /** Actions best first are ranked by travel score where they unplan as many jobs, and by the jobs they unplan where they travel as much. */
  lemma RankingPrefersFewer(s: Search, result: seq<Action>)
    requires Sorted(result, HigherFirst)
    ensures FewerUnplannedFirst(s, result)
    ensures forall i, j ::
      (&& 0 <= i < |result| && 0 <= j < |result|
       && |result[i].value.unplanned| == |result[j].value.unplanned|
       && TravelPart(s, result[i]) > TravelPart(s, result[j])) ==> i < j
  {
    forall i, j | 0 <= j <= i < |result| ensures result[i].key <= result[j].key {
      if j < i { assert HigherFirst(result[j].key, result[i].key); }
    }
  }


  lemma RankingIsSound(s: Search, searched: seq<Candidate>, n: int)
    ensures var found, result := AllFound(s, searched, n), Sort(AllFound(s, searched, n), HigherFirst);
      && Sorted(result, HigherFirst) && SameByKey(result, found) && multiset(result) == multiset(found) && |result| == |found|
      && forall x :: x in result ==> Recommended(s, searched, x)
  {
    var found, result := AllFound(s, searched, n), Sort(AllFound(s, searched, n), HigherFirst);
    RealsAreOrdered();
    SortIsSorted(found, HigherFirst);
    SortIsPermutation(found, HigherFirst);
    assert |result| == |multiset(result)| && |found| == |multiset(found)|;
    forall x | x in result
      ensures Recommended(s, searched, x)
    {
      SortKeepsMembers(found, HigherFirst, x);
      AllFoundAreRecommended(s, searched, n, x);
    }
  }

  lemma RealsAreOrdered()
    ensures TotalOrder(HigherFirst)
  {
  }

  lemma SizeWhereItStops(s: Search, candidates: seq<Candidate>, n: int, m: nat)
    requires StopsAt(s, candidates, n, m)
    ensures n >= 1 ==> |AllFound(s, candidates[..m], n)| <= 2 * n - 1
    ensures n <= 0 ==> m == 0
  {
    assert 0 < m ==> |AllFound(s, candidates[..0], n)| < n;
    if m > 0 {
      AllFoundSnoc(s, candidates, n, m - 1);
      assert |AllFound(s, candidates[..m - 1], n)| < n;
    }
  }

  lemma {:induction false} ActionsAreOutcomes(outcomes: seq<Option<Action>>, x: Action)
    ensures x in Actions(outcomes) <==> Some(x) in outcomes
  {
    if outcomes != [] {
      ActionsAreOutcomes(Init(outcomes), x);
      assert outcomes == Init(outcomes) + [Last(outcomes)];
    }
  }

  lemma {:induction false} AllFoundAreRecommended(s: Search, candidates: seq<Candidate>, n: int, x: Action)
    requires x in AllFound(s, candidates, n)
    ensures Recommended(s, candidates, x)
  {
    if x in AllFound(s, Init(candidates), n) {
      AllFoundAreRecommended(s, Init(candidates), n, x);
      var c, g :| c in Init(candidates) && g in c.groups && Sound(s, c.workers, g, x);
      assert c in candidates;
    } else {
      var c := Last(candidates);
      ActionsAreOutcomes(Outcomes(s, c), x);
      var i :| 0 <= i < |c.groups| && Outcomes(s, c)[i] == Some(x);
      OutcomeIsSound(s, c.workers, c.groups[i]);
      assert c in candidates;
    }
  }

  /** Nothing acceptable is overlooked while there is room: a search that comes back short has found all there is. */
  lemma {:induction false} ShortAnswerIsComplete(s: Search, candidates: seq<Candidate>, n: int, c: Candidate, g: Group)
    requires |AllFound(s, candidates, n)| < n && c in candidates && g in c.groups && Outcome(s, c.workers, g).Some?
    ensures Outcome(s, c.workers, g).value in AllFound(s, candidates, n)
  {
    var init, last := Init(candidates), Last(candidates);
    if c in init {
      ShortAnswerIsComplete(s, init, n, c, g);
    } else {
      assert c == last;
      assert |FoundBy(s, last, n)| < n;
      var i :| 0 <= i < |c.groups| && c.groups[i] == g;
      assert Outcomes(s, c)[i] == Outcome(s, c.workers, g);
      ActionsAreOutcomes(Outcomes(s, c), Outcome(s, c.workers, g).value);
    }
  }

  lemma {:induction false} AllSome(outcomes: seq<Option<Action>>)
    requires forall i :: 0 <= i < |outcomes| ==> outcomes[i].Some?
    ensures |Actions(outcomes)| == |outcomes|
  {
    if outcomes != [] {
      assert Last(outcomes).Some?;
      AllSome(Init(outcomes));
    }
  }

  lemma AllGroupsFound(s: Search, c: Candidate, most: int)
    requires forall i :: 0 <= i < |c.groups| ==> Outcome(s, c.workers, c.groups[i]).Some?
    requires |c.groups| <= most && 1 <= most
    ensures |FoundBy(s, c, most)| == |c.groups|
  {
    AllSome(Outcomes(s, c));
  }

  /** The bound is reached for every n, by any first candidate that falls one short and any second one that gives n more. */
  lemma TheBoundIsReached(s: Search, n: nat, first: Candidate, second: Candidate)
    requires n >= 1 && |FoundBy(s, first, n)| == n - 1 && |FoundBy(s, second, n)| == n
    ensures StopsAt(s, [first, second], n, 2) && |AllFound(s, [first, second][..2], n)| == 2 * n - 1
  {
    AllFoundSnoc(s, [first, second], n, 0);
    AllFoundSnoc(s, [first, second], n, 1);
    assert AllFound(s, [first, second][..0], n) == [];
  }

  /** So it is by any n - 1 and n groups that come to an action each. */
  lemma TheBoundIsReachedByGroups(s: Search, first: Candidate, second: Candidate)
    requires |second.groups| == |first.groups| + 1
    requires forall i :: 0 <= i < |first.groups| ==> Outcome(s, first.workers, first.groups[i]).Some?
    requires forall i :: 0 <= i < |second.groups| ==> Outcome(s, second.workers, second.groups[i]).Some?
    ensures var n := |second.groups|;
      StopsAt(s, [first, second], n, 2) && |AllFound(s, [first, second][..2], n)| == 2 * n - 1
  {
    AllGroupsFound(s, first, |second.groups|);
    AllGroupsFound(s, second, |second.groups|);
    TheBoundIsReached(s, |second.groups|, first, second);
  }
}
