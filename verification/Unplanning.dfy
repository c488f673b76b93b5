/**
 Making room for a job: while the dispatcher cannot place it, take one job of lower priority
 out of the working slots and try again.
 */
module Unplanning {
  import opened Common

  /** The job lists of the working slots, first slot first; the last code of each is the job being placed. */
  datatype Slots = Nil | Cons(codes: seq<Code>, rest: Slots)

  // ------------------------------------------------------------ one list of codes

  /** The lower-priority codes of a list, last to first. */
  function LowBackwards(codes: seq<Code>, low: set<Code>): (r: seq<Code>) {
    if codes == [] then []
    else if Last(codes) in low then [Last(codes)] + LowBackwards(Init(codes), low)
    else LowBackwards(Init(codes), low)
  }

  /** The codes of a list that are not of lower priority, in order. */
  function NotLow(codes: seq<Code>, low: set<Code>): (r: seq<Code>) {
    if codes == [] then []
    else if Last(codes) in low then NotLow(Init(codes), low)
    else NotLow(Init(codes), low) + [Last(codes)]
  }

  /** The list without its last k lower-priority codes. */
  function DropLow(codes: seq<Code>, low: set<Code>, k: nat): (r: seq<Code>) {
    if k == 0 || codes == [] then codes
    else if Last(codes) in low then DropLow(Init(codes), low, k - 1)
    else DropLow(Init(codes), low, k) + [Last(codes)]
  }

  lemma LowSnoc(codes: seq<Code>, x: Code, low: set<Code>)
    ensures LowBackwards(codes + [x], low) == if x in low then [x] + LowBackwards(codes, low) else LowBackwards(codes, low)
  {
    assert Init(codes + [x]) == codes;
  }

  lemma DropSnoc(codes: seq<Code>, x: Code, low: set<Code>, k: nat)
    requires k > 0
    ensures DropLow(codes + [x], low, k) == if x in low then DropLow(codes, low, k - 1) else DropLow(codes, low, k) + [x]
  {
    assert Init(codes + [x]) == codes;
  }

  /** What is left can still give up the rest, in the same order. */
  lemma {:induction false} LowAfterDrop(codes: seq<Code>, low: set<Code>, k: nat)
    requires k <= |LowBackwards(codes, low)|
    ensures LowBackwards(DropLow(codes, low, k), low) == LowBackwards(codes, low)[k..]
  {
    if k > 0 {
      if Last(codes) in low {
        LowAfterDrop(Init(codes), low, k - 1);
      } else {
        LowAfterDrop(Init(codes), low, k);
        LowSnoc(DropLow(Init(codes), low, k), Last(codes), low);
      }
    }
  }

  lemma {:induction false} DropAllLow(codes: seq<Code>, low: set<Code>, k: nat)
    requires k >= |LowBackwards(codes, low)|
    ensures DropLow(codes, low, k) == NotLow(codes, low)
  {
    if codes != [] {
      if Last(codes) in low {
        DropAllLow(Init(codes), low, k - 1);
      } else {
        DropAllLow(Init(codes), low, k);
        assert codes == Init(codes) + [Last(codes)];
      }
    }
  }

  lemma {:induction false} DropMore(codes: seq<Code>, low: set<Code>, k: nat)
    ensures DropLow(DropLow(codes, low, k), low, 1) == DropLow(codes, low, k + 1)
  {
    if k > 0 && codes != [] {
      if Last(codes) in low {
        DropMore(Init(codes), low, k - 1);
      } else {
        DropMore(Init(codes), low, k);
        DropSnoc(DropLow(Init(codes), low, k), Last(codes), low, 1);
      }
    }
  }

  function Without(codes: seq<Code>, j: nat): seq<Code>
    requires j < |codes|
  {
    codes[..j] + codes[j + 1..]
  }

  /** Position j holds the last low code of the list. */
  predicate LastLow(codes: seq<Code>, low: set<Code>, j: nat) {
    j < |codes| && codes[j] in low && forall q :: j < q < |codes| ==> codes[q] !in low
  }

  lemma {:induction false} DropOne(codes: seq<Code>, low: set<Code>, j: nat)
    requires LastLow(codes, low, j)
    ensures LowBackwards(codes, low) != [] && LowBackwards(codes, low)[0] == codes[j]
    ensures DropLow(codes, low, 1) == Without(codes, j)
  {
    if j < |codes| - 1 {
      DropOne(Init(codes), low, j);
      assert Without(codes, j) == Without(Init(codes), j) + [Last(codes)];
    }
  }

  lemma {:induction false} NoneLow(codes: seq<Code>, low: set<Code>)
    requires forall q :: 0 <= q < |codes| ==> codes[q] !in low
    ensures LowBackwards(codes, low) == []
  {
    if codes != [] { NoneLow(Init(codes), low); }
  }

  lemma {:induction false} LowAreLow(codes: seq<Code>, low: set<Code>)
    ensures forall x :: x in LowBackwards(codes, low) ==> x in low
  {
    if codes != [] { LowAreLow(Init(codes), low); }
  }

  lemma {:induction false} NotLowHasNone(codes: seq<Code>, low: set<Code>)
    ensures forall x :: x in NotLow(codes, low) ==> x !in low
  {
    if codes != [] { NotLowHasNone(Init(codes), low); }
  }

  lemma {:induction false} DropKeepsMultiset(codes: seq<Code>, low: set<Code>, k: nat)
    requires k <= |LowBackwards(codes, low)|
    ensures multiset(DropLow(codes, low, k)) + multiset(LowBackwards(codes, low)[..k]) == multiset(codes)
  {
    if k == 0 {
      assert LowBackwards(codes, low)[..0] == [];
    } else {
      var init, x := Init(codes), Last(codes);
      var rest := if x in low then k - 1 else k;
      DropKeepsMultiset(init, low, rest);
      var kept, taken := DropLow(init, low, rest), LowBackwards(init, low)[..rest];
      TakenSnoc(codes, low, k, taken);
      MultisetSnoc(multiset(kept), multiset(taken), multiset(init), x);
      assert multiset(codes) == multiset(init) + multiset{x} by { assert codes == init + [x]; }
      assert multiset(DropLow(codes, low, k)) == if x in low then multiset(kept) else multiset(kept) + multiset{x};
    }
  }

  lemma TakenSnoc(codes: seq<Code>, low: set<Code>, k: nat, taken: seq<Code>)
    requires codes != [] && 0 < k <= |LowBackwards(codes, low)|
    requires taken == LowBackwards(Init(codes), low)[..if Last(codes) in low then k - 1 else k]
    ensures multiset(LowBackwards(codes, low)[..k]) == if Last(codes) in low then multiset{Last(codes)} + multiset(taken) else multiset(taken)
  {
    if Last(codes) in low {
      assert LowBackwards(codes, low)[..k] == [Last(codes)] + taken;
    }
  }

  lemma MultisetSnoc(kept: multiset<Code>, taken: multiset<Code>, whole: multiset<Code>, x: Code)
    requires kept + taken == whole
    ensures kept + (multiset{x} + taken) == whole + multiset{x}
    ensures (kept + multiset{x}) + taken == whole + multiset{x}
  {
  }

  /** `a` can be had from `b` by leaving elements out. */
  predicate Subsequence(a: seq<Code>, b: seq<Code>) {
    if a == [] then true
    else if b == [] then false
    else (Last(a) == Last(b) && Subsequence(Init(a), Init(b))) || Subsequence(a, Init(b))
  }

  lemma {:induction false} SubsequenceSelf(a: seq<Code>)
    ensures Subsequence(a, a)
  {
    if a != [] { SubsequenceSelf(Init(a)); }
  }

  lemma SubsequenceSnoc(a: seq<Code>, b: seq<Code>, x: Code)
    requires Subsequence(a, b)
    ensures Subsequence(a + [x], b + [x])
    ensures Subsequence(a, b + [x])
  {
    assert Init(a + [x]) == a && Init(b + [x]) == b;
  }

  lemma {:induction false} DropIsSubsequence(codes: seq<Code>, low: set<Code>, k: nat)
    ensures Subsequence(DropLow(codes, low, k), codes)
  {
    if codes == [] {
    } else if k == 0 {
      SubsequenceSelf(codes);
    } else {
      var init, x := Init(codes), Last(codes);
      assert codes == init + [x];
      var less := if x in low then k - 1 else k;
      DropIsSubsequence(init, low, less);
      SubsequenceSnoc(DropLow(init, low, less), init, x);
    }
  }

  lemma {:induction false} NotLowIsSubsequence(codes: seq<Code>, low: set<Code>, k: nat)
    ensures Subsequence(NotLow(codes, low), DropLow(codes, low, k))
  {
    if codes != [] {
      var init, x := Init(codes), Last(codes);
      assert codes == init + [x];
      var less := if x in low && k > 0 then k - 1 else k;
      NotLowIsSubsequence(init, low, less);
      SubsequenceSnoc(NotLow(init, low), DropLow(init, low, less), x);
    }
  }

  // ------------------------------------------------------------ one slot: its last code is the job being placed

  /** All codes but the last one. */
  function Others(codes: seq<Code>): seq<Code> {
    if codes == [] then [] else Init(codes)
  }

  /** The last code, if there is one. */
  function Own(codes: seq<Code>): seq<Code> {
    if codes == [] then [] else [Last(codes)]
  }

  /** The jobs a slot can give up, in the order it gives them up. */
  function Removable(codes: seq<Code>, low: set<Code>): (r: seq<Code>) {
    LowBackwards(Others(codes), low)
  }

  /** A slot without the last k lower-priority codes ahead of its last code. */
  function DropFromSlot(codes: seq<Code>, low: set<Code>, k: nat): (r: seq<Code>) {
    DropLow(Others(codes), low, k) + Own(codes)
  }

  /** Nothing of lower priority left beside the last code. */
  function StrippedSlot(codes: seq<Code>, low: set<Code>): (r: seq<Code>) {
    NotLow(Others(codes), low) + Own(codes)
  }

  predicate NothingRemovable(codes: seq<Code>, low: set<Code>) {
    forall q :: 0 <= q < |codes| - 1 ==> codes[q] !in low
  }

  lemma OthersAfterDrop(codes: seq<Code>, low: set<Code>, k: nat)
    ensures Others(DropFromSlot(codes, low, k)) == DropLow(Others(codes), low, k)
    ensures Own(DropFromSlot(codes, low, k)) == Own(codes)
  {
  }

  lemma OthersWithout(codes: seq<Code>, j: nat)
    requires j < |codes| - 1
    ensures Without(Others(codes), j) + Own(codes) == Without(codes, j)
  {
  }

  /** The code taken out of a slot that has already given up k is the next one in its order. */
  lemma SlotGivesNext(codes: seq<Code>, low: set<Code>, k: nat, j: nat)
    requires k <= |Removable(codes, low)|
    requires LastLow(Others(DropFromSlot(codes, low, k)), low, j)
    ensures k < |Removable(codes, low)| && Removable(codes, low)[k] == DropFromSlot(codes, low, k)[j]
    ensures DropFromSlot(codes, low, k + 1) == Without(DropFromSlot(codes, low, k), j)
  {
    OthersAfterDrop(codes, low, k);
    LowAfterDrop(Others(codes), low, k);
    DropOne(DropLow(Others(codes), low, k), low, j);
    DropMore(Others(codes), low, k);
    OthersWithout(DropFromSlot(codes, low, k), j);
  }

  /** A slot with nothing low ahead of its last code has given up everything. */
  lemma SlotIsDone(codes: seq<Code>, low: set<Code>, k: nat)
    requires k <= |Removable(codes, low)|
    requires NothingRemovable(DropFromSlot(codes, low, k), low)
    ensures k == |Removable(codes, low)|
  {
    OthersAfterDrop(codes, low, k);
    LowAfterDrop(Others(codes), low, k);
    NoneLow(DropLow(Others(codes), low, k), low);
  }

  lemma SlotKeepsMultiset(codes: seq<Code>, low: set<Code>, k: nat)
    requires k <= |Removable(codes, low)|
    ensures multiset(DropFromSlot(codes, low, k)) + multiset(Removable(codes, low)[..k]) == multiset(codes)
  {
    if codes != [] {
      assert codes == Others(codes) + Own(codes);
      DropKeepsMultiset(Others(codes), low, k);
      MultisetSnoc(multiset(DropLow(Others(codes), low, k)), multiset(Removable(codes, low)[..k]), multiset(Others(codes)), Last(codes));
    }
  }

  /** `r` is what is left of the slot `codes` when only lower-priority jobs ahead of its last code may go. */
  predicate Thinned(r: seq<Code>, codes: seq<Code>, low: set<Code>) {
    Subsequence(r, codes) && Subsequence(StrippedSlot(codes, low), r) && Own(r) == Own(codes)
  }

  lemma SlotIsThinned(codes: seq<Code>, low: set<Code>, k: nat)
    ensures Thinned(DropFromSlot(codes, low, k), codes, low)
  {
    OthersAfterDrop(codes, low, k);
    if codes != [] {
      var o, x := Others(codes), Last(codes);
      assert codes == o + [x];
      DropIsSubsequence(o, low, k);
      NotLowIsSubsequence(o, low, k);
      SubsequenceSnoc(DropLow(o, low, k), o, x);
      SubsequenceSnoc(NotLow(o, low), DropLow(o, low, k), x);
    }
  }

  // ------------------------------------------------------------ all slots

  /** The order in which jobs are taken out: slots left to right, inside a slot last to first. */
  function Order(slots: Slots, low: set<Code>): (r: seq<Code>) {
    match slots
    case Nil => []
    case Cons(codes, rest) => Removable(codes, low) + Order(rest, low)
  }

  /** The slots after the first k jobs of the order are gone. */
  function After(slots: Slots, low: set<Code>, k: nat): (r: Slots) {
    match slots
    case Nil => Nil
    case Cons(codes, rest) =>
      var own := |Removable(codes, low)|;
      Cons(DropFromSlot(codes, low, k), After(rest, low, if k <= own then 0 else k - own))
  }

  /** Every slot without its lower-priority jobs. */
  function Stripped(slots: Slots, low: set<Code>): (r: Slots) {
    match slots
    case Nil => Nil
    case Cons(codes, rest) => Cons(StrippedSlot(codes, low), Stripped(rest, low))
  }

  lemma {:induction false} AfterNone(slots: Slots, low: set<Code>)
    ensures After(slots, low, 0) == slots
  {
    match slots
    case Nil =>
    case Cons(codes, rest) => AfterNone(rest, low);
  }

  /** Removing the whole order strips every slot. */
  lemma {:induction false} AfterAll(slots: Slots, low: set<Code>, k: nat)
    requires k >= |Order(slots, low)|
    ensures After(slots, low, k) == Stripped(slots, low)
  {
    match slots
    case Nil =>
    case Cons(codes, rest) =>
      var own := |Removable(codes, low)|;
      AfterAll(rest, low, if k <= own then 0 else k - own);
      DropAllLow(Others(codes), low, k);
  }

  /** Slot i is the first one with a removable job, and j is the position of its last one. */
  predicate Candidate(slots: Slots, low: set<Code>, i: nat, j: nat) {
    match slots
    case Nil => false
    case Cons(codes, rest) =>
      if i == 0 then LastLow(Others(codes), low, j)
      else NothingRemovable(codes, low) && Candidate(rest, low, i - 1, j)
  }

  predicate NoCandidate(slots: Slots, low: set<Code>) {
    match slots
    case Nil => true
    case Cons(codes, rest) => NothingRemovable(codes, low) && NoCandidate(rest, low)
  }

  /** `next` and `x` are what is left and what was taken when `now` gives up position j of slot i. */
  predicate Takes(now: Slots, i: nat, j: nat, x: Code, next: Slots) {
    match now
    case Nil => false
    case Cons(codes, rest) =>
      if i == 0 then j < |codes| && codes[j] == x && next == Cons(Without(codes, j), rest)
      else next.Cons? && next.codes == codes && Takes(rest, i - 1, j, x, next.rest)
  }

  lemma StrippedSlotIsDone(codes: seq<Code>, low: set<Code>, k: nat, j: nat)
    requires LastLow(Others(DropFromSlot(codes, low, k)), low, j)
    ensures k < |Removable(codes, low)|
  {
    if k >= |Removable(codes, low)| {
      OthersAfterDrop(codes, low, k);
      DropAllLow(Others(codes), low, k);
      NotLowHasNone(Others(codes), low);
      assert false;
    }
  }

  lemma SlotStays(codes: seq<Code>, low: set<Code>, k: nat)
    requires NothingRemovable(DropFromSlot(codes, low, k), low)
    ensures k >= |Removable(codes, low)|
    ensures DropFromSlot(codes, low, k + 1) == DropFromSlot(codes, low, k)
  {
    if k < |Removable(codes, low)| { SlotIsDone(codes, low, k); }
    DropAllLow(Others(codes), low, k);
    DropAllLow(Others(codes), low, k + 1);
  }

  lemma TakesHere(slots: Slots, low: set<Code>, k: nat, j: nat)
    requires slots.Cons? && LastLow(Others(DropFromSlot(slots.codes, low, k)), low, j)
    ensures k < |Order(slots, low)|
    ensures Takes(After(slots, low, k), 0, j, Order(slots, low)[k], After(slots, low, k + 1))
  {
    StrippedSlotIsDone(slots.codes, low, k, j);
    SlotGivesNext(slots.codes, low, k, j);
  }

  lemma AfterLater(slots: Slots, low: set<Code>, k: nat)
    requires slots.Cons? && k >= |Removable(slots.codes, low)|
    ensures After(slots, low, k) == Cons(DropFromSlot(slots.codes, low, k), After(slots.rest, low, k - |Removable(slots.codes, low)|))
  {
  }

  lemma OrderLater(slots: Slots, low: set<Code>, k: nat)
    requires slots.Cons? && |Removable(slots.codes, low)| <= k < |Order(slots, low)|
    ensures Order(slots, low)[k] == Order(slots.rest, low)[k - |Removable(slots.codes, low)|]
  {
  }

  /** With k jobs out, taking out the candidate is what the order does next. */
  lemma {:induction false} CandidateIsNext(slots: Slots, low: set<Code>, k: nat, i: nat, j: nat)
    requires k <= |Order(slots, low)| && Candidate(After(slots, low, k), low, i, j)
    ensures k < |Order(slots, low)|
    ensures Takes(After(slots, low, k), i, j, Order(slots, low)[k], After(slots, low, k + 1))
  {
    if i == 0 {
      TakesHere(slots, low, k, j);
    } else {
      var own := |Removable(slots.codes, low)|;
      SlotStays(slots.codes, low, k);
      AfterLater(slots, low, k);
      AfterLater(slots, low, k + 1);
      CandidateIsNext(slots.rest, low, k - own, i - 1, j);
      OrderLater(slots, low, k);
    }
  }

  /** With k jobs out and no candidate left, the order is used up. */
  lemma {:induction false} NoCandidateMeansDone(slots: Slots, low: set<Code>, k: nat)
    requires k <= |Order(slots, low)| && NoCandidate(After(slots, low, k), low)
    ensures k == |Order(slots, low)|
  {
    match slots
    case Nil =>
    case Cons(codes, rest) =>
      SlotStays(codes, low, k);
      NoCandidateMeansDone(rest, low, k - |Removable(codes, low)|);
  }

  /** Nothing but lower-priority jobs is ever in the order. */
  lemma {:induction false} OrderIsLow(slots: Slots, low: set<Code>)
    ensures forall x :: x in Order(slots, low) ==> x in low
  {
    match slots
    case Nil =>
    case Cons(codes, rest) =>
      LowAreLow(Others(codes), low);
      OrderIsLow(rest, low);
  }

  predicate AllThinned(now: Slots, slots: Slots, low: set<Code>) {
    match slots
    case Nil => now == Nil
    case Cons(codes, rest) => now.Cons? && Thinned(now.codes, codes, low) && AllThinned(now.rest, rest, low)
  }

  /** Every slot keeps its last code and the order of what remains, and loses nothing but lower-priority jobs. */
  lemma {:induction false} AfterThins(slots: Slots, low: set<Code>, k: nat)
    ensures AllThinned(After(slots, low, k), slots, low)
  {
    match slots
    case Nil =>
    case Cons(codes, rest) =>
      var own := |Removable(codes, low)|;
      SlotIsThinned(codes, low, k);
      AfterThins(rest, low, if k <= own then 0 else k - own);
  }

  /** All the jobs of all the slots. */
  function Jobs(slots: Slots): (r: multiset<Code>) {
    match slots
    case Nil => multiset{}
    case Cons(codes, rest) => multiset(codes) + Jobs(rest)
  }

  lemma SlotGivesUp(codes: seq<Code>, low: set<Code>, k: nat) returns (taken: seq<Code>)
    ensures taken <= Removable(codes, low) && |taken| == if k <= |Removable(codes, low)| then k else |Removable(codes, low)|
    ensures multiset(DropFromSlot(codes, low, k)) + multiset(taken) == multiset(codes)
  {
    var own := |Removable(codes, low)|;
    if k <= own {
      taken := Removable(codes, low)[..k];
      SlotKeepsMultiset(codes, low, k);
    } else {
      taken := Removable(codes, low);
      assert taken[..own] == taken;
      SlotKeepsMultiset(codes, low, own);
      DropAllLow(Others(codes), low, own);
      DropAllLow(Others(codes), low, k);
    }
  }

  /** What remains and what was taken out together are what there was. */
  lemma {:induction false} AfterKeepsJobs(slots: Slots, low: set<Code>, k: nat)
    requires k <= |Order(slots, low)|
    ensures Jobs(After(slots, low, k)) + multiset(Order(slots, low)[..k]) == Jobs(slots)
  {
    match slots
    case Nil =>
    case Cons(codes, rest) =>
      var first, later := Removable(codes, low), Order(rest, low);
      var taken := SlotGivesUp(codes, low, k);
      var there := if k <= |first| then 0 else k - |first|;
      AfterKeepsJobs(rest, low, there);
      assert After(slots, low, k) == Cons(DropFromSlot(codes, low, k), After(rest, low, there));
      var order := Order(slots, low);
      assert order == first + later;
      TakeConcat(order, first, later, k, taken, there);
      JobsSplit(multiset(DropFromSlot(codes, low, k)), Jobs(After(rest, low, there)), multiset(taken), multiset(later[..there]), multiset(codes), Jobs(rest));
      assert multiset(order[..k]) == multiset(taken) + multiset(later[..there]);
  }

  lemma TakeConcat(whole: seq<Code>, a: seq<Code>, b: seq<Code>, k: nat, taken: seq<Code>, j: nat)
    requires whole == a + b && j <= |b| && k == |taken| + j && taken <= a && (j == 0 || taken == a)
    ensures whole[..k] == taken + b[..j]
  {
  }

  lemma JobsSplit(kept: multiset<Code>, keptLater: multiset<Code>, taken: multiset<Code>, takenLater: multiset<Code>,
                  had: multiset<Code>, hadLater: multiset<Code>)
    requires kept + taken == had && keptLater + takenLater == hadLater
    ensures (kept + keptLater) + (taken + takenLater) == had + hadLater
  {
  }

  /** The job is still in some slot. */
  predicate Stands(x: Code, slots: Slots) {
    match slots
    case Nil => false
    case Cons(codes, rest) => x in codes || Stands(x, rest)
  }

  lemma {:induction false} StandingIsCounted(x: Code, slots: Slots)
    ensures Stands(x, slots) <==> Jobs(slots)[x] > 0
  {
    match slots
    case Nil =>
    case Cons(codes, rest) =>
      StandingIsCounted(x, rest);
      assert x in codes <==> multiset(codes)[x] > 0;
  }

  /**
   After k removals a job still stands exactly when it was taken out fewer times than there were
   slots and places that held it: a job shared by slots may leave one and stay in another.
   */
  lemma StillStandsIff(slots: Slots, low: set<Code>, k: nat, x: Code)
    requires k <= |Order(slots, low)|
    ensures Stands(x, After(slots, low, k)) <==> multiset(Order(slots, low)[..k])[x] < Jobs(slots)[x]
  {
    AfterKeepsJobs(slots, low, k);
    StandingIsCounted(x, After(slots, low, k));
  }

  // ------------------------------------------------------------ when it fails

  predicate Fewer(a: Slots, b: Slots) {
    match b
    case Nil => a == Nil
    case Cons(codes, rest) => a.Cons? && Subsequence(a.codes, codes) && Fewer(a.rest, rest)
  }

  /** Taking jobs out of slots the dispatcher can handle leaves slots it can handle. */
  ghost predicate Monotone(dispatch: Slots -> bool) {
    forall a: Slots, b: Slots :: dispatch(b) && Fewer(a, b) ==> dispatch(a)
  }

  lemma {:induction false} StrippedIsFewest(now: Slots, slots: Slots, low: set<Code>)
    requires AllThinned(now, slots, low)
    ensures Fewer(Stripped(slots, low), now)
  {
    match slots
    case Nil =>
    case Cons(codes, rest) => StrippedIsFewest(now.rest, rest, low);
  }

  /**
   For a dispatcher that never fails because jobs were taken out, some prefix of the order is
   enough exactly when taking out everything of lower priority is.
   */
  lemma UnplanningIsComplete(slots: Slots, low: set<Code>, dispatch: Slots -> bool)
    requires Monotone(dispatch)
    ensures (exists k: nat :: k <= |Order(slots, low)| && dispatch(After(slots, low, k))) <==> dispatch(Stripped(slots, low))
  {
    AfterAll(slots, low, |Order(slots, low)|);
    forall k: nat | k <= |Order(slots, low)| && dispatch(After(slots, low, k))
      ensures dispatch(Stripped(slots, low))
    {
      AfterThins(slots, low, k);
      StrippedIsFewest(After(slots, low, k), slots, low);
    }
  }

  /** The dispatcher was content with none of the first n ways to take jobs out. */
  ghost predicate RefusedUpTo(slots: Slots, low: set<Code>, dispatch: Slots -> bool, n: nat) {
    forall k: nat :: k < n ==> !dispatch(After(slots, low, k))
  }

  /** The least number of removals from k on that contents the dispatcher, or all of them. */
  function Tries(slots: Slots, low: set<Code>, dispatch: Slots -> bool, k: nat): (n: nat)
    requires k <= |Order(slots, low)|
    ensures k <= n <= |Order(slots, low)|
    decreases |Order(slots, low)| - k
  {
    if dispatch(After(slots, low, k)) || k == |Order(slots, low)| then k else Tries(slots, low, dispatch, k + 1)
  }

  /** How many jobs are unplanned. */
  function Removals(slots: Slots, low: set<Code>, attemptUnplan: bool, dispatch: Slots -> bool): (n: nat)
    ensures n <= |Order(slots, low)|
  {
    if attemptUnplan then Tries(slots, low, dispatch, 0) else 0
  }

  lemma {:induction false} TriesStopAt(slots: Slots, low: set<Code>, dispatch: Slots -> bool, k: nat, n: nat)
    requires k <= n <= |Order(slots, low)| && RefusedUpTo(slots, low, dispatch, n)
    requires dispatch(After(slots, low, n)) || n == |Order(slots, low)|
    ensures Tries(slots, low, dispatch, k) == n
    decreases n - k
  {
    if k < n { TriesStopAt(slots, low, dispatch, k + 1, n); }
  }

  /** Nothing less than the removals made was enough, and they are enough unless all have been made. */
  lemma {:induction false} TriesAreLeast(slots: Slots, low: set<Code>, dispatch: Slots -> bool, k: nat)
    requires k <= |Order(slots, low)| && RefusedUpTo(slots, low, dispatch, k)
    ensures var n := Tries(slots, low, dispatch, k);
      RefusedUpTo(slots, low, dispatch, n) && (dispatch(After(slots, low, n)) || n == |Order(slots, low)|)
    decreases |Order(slots, low)| - k
  {
    if !dispatch(After(slots, low, k)) && k < |Order(slots, low)| { TriesAreLeast(slots, low, dispatch, k + 1); }
  }

  /** `now` is left after taking out `unplanned`, and nothing less was enough. */
  ghost predicate Progress(slots: Slots, low: set<Code>, dispatch: Slots -> bool, unplanned: seq<Code>, now: Slots) {
    && unplanned <= Order(slots, low)
    && now == After(slots, low, |unplanned|)
    && RefusedUpTo(slots, low, dispatch, |unplanned|)
  }

  lemma LongerPrefix(order: seq<Code>, taken: seq<Code>)
    requires taken <= order && |taken| < |order|
    ensures taken + [order[|taken|]] <= order
  {
  }

  lemma RefusedOnceMore(slots: Slots, low: set<Code>, dispatch: Slots -> bool, n: nat)
    requires RefusedUpTo(slots, low, dispatch, n) && !dispatch(After(slots, low, n))
    ensures RefusedUpTo(slots, low, dispatch, n + 1)
  {
    forall k: nat | k < n + 1 ensures !dispatch(After(slots, low, k)) {
      if k < n { assert !dispatch(After(slots, low, k)); }
    }
  }

  lemma OneMore(slots: Slots, low: set<Code>, dispatch: Slots -> bool, unplanned: seq<Code>, now: Slots, i: nat, j: nat, x: Code, next: Slots)
    requires Progress(slots, low, dispatch, unplanned, now) && !dispatch(now)
    requires Candidate(now, low, i, j) && Takes(now, i, j, x, next)
    ensures Progress(slots, low, dispatch, unplanned + [x], next)
    ensures |unplanned| < |Order(slots, low)|
  {
    var n, order := |unplanned|, Order(slots, low);
    CandidateIsNext(slots, low, n, i, j);
    TakesOnce(now, i, j, x, next, order[n], After(slots, low, n + 1));
    LongerPrefix(order, unplanned);
    RefusedOnceMore(slots, low, dispatch, n);
  }

  lemma FailureIsFinal(slots: Slots, low: set<Code>, dispatch: Slots -> bool, n: nat)
    requires n <= |Order(slots, low)|
    requires !dispatch(After(slots, low, n)) ==> n == |Order(slots, low)|
    ensures Monotone(dispatch) ==> (dispatch(After(slots, low, n)) <==> dispatch(Stripped(slots, low)))
  {
    AfterAll(slots, low, |Order(slots, low)|);
    if Monotone(dispatch) { UnplanningIsComplete(slots, low, dispatch); }
  }

  // ------------------------------------------------------------ the loop

  /** A copied working slot of the search. */
  class TimeSlot {
    var assignedJobCodes: seq<Code>

    constructor (codes: seq<Code>)
      ensures assignedJobCodes == codes
    {
      assignedJobCodes := codes;
    }
  }

  function FromLists(lists: seq<seq<Code>>): Slots {
    if lists == [] then Nil else Cons(lists[0], FromLists(lists[1..]))
  }

  function Lists(slots: seq<TimeSlot>): (r: seq<seq<Code>>)
    reads slots
    ensures |r| == |slots|
    ensures forall i :: 0 <= i < |slots| ==> r[i] == slots[i].assignedJobCodes
  {
    seq(|slots|, i requires 0 <= i < |slots| reads slots => slots[i].assignedJobCodes)
  }

  function View(slots: seq<TimeSlot>): Slots
    reads slots
  {
    FromLists(Lists(slots))
  }

  lemma {:induction false} CandidateFrom(lists: seq<seq<Code>>, low: set<Code>, i: nat, j: nat)
    requires i < |lists| && LastLow(Others(lists[i]), low, j)
    requires forall p :: 0 <= p < i ==> NothingRemovable(lists[p], low)
    ensures Candidate(FromLists(lists), low, i, j)
  {
    if i > 0 {
      assert forall p :: 0 <= p < i - 1 ==> lists[1..][p] == lists[p + 1];
      CandidateFrom(lists[1..], low, i - 1, j);
    }
  }

  lemma {:induction false} NoCandidateFrom(lists: seq<seq<Code>>, low: set<Code>)
    requires forall p :: 0 <= p < |lists| ==> NothingRemovable(lists[p], low)
    ensures NoCandidate(FromLists(lists), low)
  {
    if lists != [] {
      assert forall p :: 0 <= p < |lists| - 1 ==> lists[1..][p] == lists[p + 1];
      NoCandidateFrom(lists[1..], low);
    }
  }

  lemma {:induction false} TakesFrom(lists: seq<seq<Code>>, i: nat, j: nat)
    requires i < |lists| && j < |lists[i]|
    ensures Takes(FromLists(lists), i, j, lists[i][j], FromLists(lists[i := Without(lists[i], j)]))
  {
    if i == 0 {
      assert lists[0 := Without(lists[0], j)][1..] == lists[1..];
    } else {
      TakesFrom(lists[1..], i - 1, j);
      assert lists[i := Without(lists[i], j)][1..] == lists[1..][i - 1 := Without(lists[i], j)];
    }
  }

  lemma {:induction false} TakesOnce(now: Slots, i: nat, j: nat, x: Code, next: Slots, x': Code, next': Slots)
    requires Takes(now, i, j, x, next) && Takes(now, i, j, x', next')
    ensures x == x' && next == next'
  {
    if i > 0 { TakesOnce(now.rest, i - 1, j, x, next.rest, x', next'.rest); }
  }

  /** The jobs of lower priority than the one being placed. */
  function Lower(priority: map<Code, int>, currPriority: int): (low: set<Code>) {
    set x | x in priority && priority[x] < currPriority
  }

  /** With these, what is taken out has a lower priority than the job being placed. */
  lemma OrderIsOfLowerPriority(slots: Slots, priority: map<Code, int>, currPriority: int)
    ensures forall x :: x in Order(slots, Lower(priority, currPriority)) ==> x in priority && priority[x] < currPriority
  {
    OrderIsLow(slots, Lower(priority, currPriority));
  }

  /** The last lower-priority job ahead of the last code, or -1. */
  method LastLower(codes: seq<Code>, priority: map<Code, int>, currPriority: int) returns (j: int)
    requires forall x :: x in codes ==> x in priority
    ensures j == -1 ==> NothingRemovable(codes, Lower(priority, currPriority))
    ensures j != -1 ==> 0 <= j && LastLow(Others(codes), Lower(priority, currPriority), j)
    ensures -1 <= j
    ensures j != -1 ==> j < |codes| - 1 && priority[codes[j]] < currPriority
    ensures forall q :: j < q < |codes| - 1 ==> priority[codes[q]] >= currPriority
  {
    j := |codes| - 2;
    while j >= 0
      invariant -2 <= j <= |codes| - 2
      invariant forall q :: j < q < |codes| - 1 && 0 <= q ==> codes[q] !in Lower(priority, currPriority)
    {
      if priority[codes[j]] < currPriority {
        return;
      }
      j := j - 1;
    }
    j := -1;
  }

  /** Every job of the slots is known. */
  predicate Listed(slots: seq<TimeSlot>, priority: map<Code, int>)
    reads slots
  {
    forall p :: 0 <= p < |slots| ==> forall x :: x in slots[p].assignedJobCodes ==> x in priority
  }

  /** The slot and the position of the first job that may go, or -1 and -1. */
  method FindCandidate(slots: seq<TimeSlot>, priority: map<Code, int>, currPriority: int) returns (i: int, j: int)
    requires Listed(slots, priority)
    ensures -1 <= i < |slots| && -1 <= j
    ensures i == -1 ==> NoCandidate(View(slots), Lower(priority, currPriority))
    ensures i != -1 ==> 0 <= j < |slots[i].assignedJobCodes| && Candidate(View(slots), Lower(priority, currPriority), i, j)
    ensures forall p, q :: 0 <= p < (if i == -1 then |slots| else i) && 0 <= q < |slots[p].assignedJobCodes| - 1 ==>
      priority[slots[p].assignedJobCodes[q]] >= currPriority
    ensures i != -1 ==>
      var codes := slots[i].assignedJobCodes;
      && j < |codes| - 1 && priority[codes[j]] < currPriority
      && forall q :: j < q < |codes| - 1 ==> priority[codes[q]] >= currPriority
  {
    ghost var low, lists := Lower(priority, currPriority), Lists(slots);
    i := 0;
    while i < |slots|
      invariant 0 <= i <= |slots|
      invariant forall p :: 0 <= p < i ==> NothingRemovable(lists[p], low)
      invariant forall p, q :: 0 <= p < i && 0 <= q < |slots[p].assignedJobCodes| - 1 ==>
        priority[slots[p].assignedJobCodes[q]] >= currPriority
    {
      j := LastLower(slots[i].assignedJobCodes, priority, currPriority);
      if j != -1 {
        CandidateFrom(lists, low, i, j);
        return;
      }
      i := i + 1;
    }
    NoCandidateFrom(lists, low);
    i, j := -1, -1;
  }

  /** What a slot keeps: its last code, and every code that is not of lower priority. */
  predicate Kept(now: seq<Code>, was: seq<Code>, low: set<Code>) {
    && Own(now) == Own(was)
    && (forall x :: x in now ==> x in was)
    && (forall x :: x in was && x !in low ==> x in now)
  }

  lemma {:induction false} SubsequenceMembers(a: seq<Code>, b: seq<Code>, x: Code)
    requires Subsequence(a, b) && x in a
    ensures x in b
  {
    assert a == Init(a) + [Last(a)] && b == Init(b) + [Last(b)];
    if Last(a) == Last(b) && Subsequence(Init(a), Init(b)) {
      if x in Init(a) { SubsequenceMembers(Init(a), Init(b), x); }
    } else {
      SubsequenceMembers(a, Init(b), x);
    }
  }

  lemma {:induction false} NotLowStays(codes: seq<Code>, low: set<Code>, x: Code)
    requires x in codes && x !in low
    ensures x in NotLow(codes, low)
  {
    assert codes == Init(codes) + [Last(codes)];
    if x != Last(codes) { NotLowStays(Init(codes), low, x); }
  }

  lemma ThinnedIsKept(now: seq<Code>, was: seq<Code>, low: set<Code>)
    requires Thinned(now, was, low)
    ensures Kept(now, was, low)
  {
    forall x | x in now ensures x in was { SubsequenceMembers(now, was, x); }
    forall x | x in was && x !in low ensures x in now {
      assert was == Others(was) + Own(was);
      if x in Others(was) { NotLowStays(Others(was), low, x); }
      assert x in StrippedSlot(was, low);
      SubsequenceMembers(StrippedSlot(was, low), now, x);
    }
  }

  lemma {:induction false} AllKept(now: seq<seq<Code>>, was: seq<seq<Code>>, low: set<Code>, p: nat)
    requires AllThinned(FromLists(now), FromLists(was), low) && p < |now|
    ensures p < |was| && Kept(now[p], was[p], low)
  {
    ThinnedIsKept(now[0], was[0], low);
    if p > 0 { AllKept(now[1..], was[1..], low, p - 1); }
  }

  lemma KeptAfter(now: seq<seq<Code>>, was: seq<seq<Code>>, low: set<Code>, k: nat)
    requires FromLists(now) == After(FromLists(was), low, k) && |now| == |was|
    ensures forall p :: 0 <= p < |now| ==> Kept(now[p], was[p], low)
  {
    AfterThins(FromLists(was), low, k);
    forall p | 0 <= p < |now| ensures Kept(now[p], was[p], low) { AllKept(now, was, low, p); }
  }

  /** One round: take the first job that may go out of its slot. */
  method UnplanOne(slots: seq<TimeSlot>, priority: map<Code, int>, currPriority: int)
    returns (shrunk: bool, code: Code, ghost i: nat, ghost j: nat)
    requires forall p, q :: 0 <= p < q < |slots| ==> slots[p] != slots[q]
    requires Listed(slots, priority)
    modifies slots
    ensures Listed(slots, priority)
    ensures !shrunk ==> View(slots) == old(View(slots)) && NoCandidate(View(slots), Lower(priority, currPriority))
    ensures shrunk ==> Candidate(old(View(slots)), Lower(priority, currPriority), i, j)
    ensures shrunk ==> Takes(old(View(slots)), i, j, code, View(slots))
    ensures !shrunk ==> forall p, q :: 0 <= p < |slots| && 0 <= q < |slots[p].assignedJobCodes| - 1 ==>
      priority[slots[p].assignedJobCodes[q]] >= currPriority
    ensures shrunk ==> code in priority && priority[code] < currPriority
  {
    var s, last := FindCandidate(slots, priority, currPriority);
    if s == -1 {
      return false, Code(""), 0, 0;
    }
    ghost var before := Lists(slots);
    var codes := slots[s].assignedJobCodes;
    TakesFrom(before, s, last);
    slots[s].assignedJobCodes := codes[..last] + codes[last + 1..];
    assert Lists(slots) == before[s := Without(before[s], last)];
    return true, codes[last], s, last;
  }

  /**
   Dispatch, and while that fails and jobs may be unplanned, take out one more and dispatch again.
   The jobs taken out are the shortest prefix of the order the dispatcher is content with, or all
   of it if there is none.
   */
  method UnplanUntilFeasible(slots: seq<TimeSlot>, priority: map<Code, int>, currPriority: int,
                             attemptUnplan: bool, dispatch: Slots -> bool) returns (ok: bool, unplanned: seq<Code>)
    requires forall p, q :: 0 <= p < q < |slots| ==> slots[p] != slots[q]
    requires Listed(slots, priority)
    modifies slots
    ensures Progress(old(View(slots)), Lower(priority, currPriority), dispatch, unplanned, View(slots))
    ensures ok == dispatch(View(slots))
    ensures |unplanned| == Removals(old(View(slots)), Lower(priority, currPriority), attemptUnplan, dispatch)
    ensures !attemptUnplan ==> unplanned == []
    ensures attemptUnplan && !ok ==> unplanned == Order(old(View(slots)), Lower(priority, currPriority))
    ensures attemptUnplan && Monotone(dispatch) ==>
      (ok <==> dispatch(Stripped(old(View(slots)), Lower(priority, currPriority))))
    ensures forall x :: x in unplanned ==> x in priority && priority[x] < currPriority
    ensures attemptUnplan && !ok ==>
      forall p, q :: 0 <= p < |slots| && 0 <= q < |slots[p].assignedJobCodes| - 1 ==>
        slots[p].assignedJobCodes[q] in priority && priority[slots[p].assignedJobCodes[q]] >= currPriority
    ensures forall p :: 0 <= p < |slots| ==> Kept(slots[p].assignedJobCodes, old(slots[p].assignedJobCodes), Lower(priority, currPriority))
    ensures forall p, x :: 0 <= p < |slots| && x in old(slots[p].assignedJobCodes) && x in priority && priority[x] >= currPriority ==>
      x in slots[p].assignedJobCodes
  {
    ghost var low := Lower(priority, currPriority);
    ghost var was, start := Lists(slots), View(slots);
    AfterNone(start, low);
    unplanned := [];
    ok := dispatch(View(slots));
    while attemptUnplan && !ok
      invariant Listed(slots, priority)
      invariant Progress(start, low, dispatch, unplanned, View(slots))
      invariant ok == dispatch(View(slots))
      invariant !attemptUnplan ==> unplanned == []
      decreases |Order(start, low)| - |unplanned|
    {
      ghost var now := View(slots);
      var shrunk, code, i, j := UnplanOne(slots, priority, currPriority);
      if !shrunk {
        NoCandidateMeansDone(start, low, |unplanned|);
        break;
      }
      OneMore(start, low, dispatch, unplanned, now, i, j, code, View(slots));
      unplanned := unplanned + [code];
      ok := dispatch(View(slots));
    }
    OrderIsOfLowerPriority(start, priority, currPriority);
    KeptAfter(Lists(slots), was, low, |unplanned|);
    if attemptUnplan {
      FailureIsFinal(start, low, dispatch, |unplanned|);
      TriesStopAt(start, low, dispatch, 0, |unplanned|);
    }
  }
}
