/**
 The customer's available time without the time around the job's present schedule.
 Times are whole minutes; a period includes its start and excludes its end.
 */
module Availability {
  import opened Common

  datatype Period = Period(start: int, end: int) {
    predicate Has(t: int) {
      start <= t < end
    }

    function Minutes(): nat {
      if start < end then end - start else 0
    }
  }

  /** An available slot; `details` stands for its location, worker and other fields. */
  datatype Slot<T> = Slot(period: Period, details: T)

  /** The part of p1 that lies in p2, if they meet. */
  function ClipTimePeriod(p1: Period, p2: Period): (r: Option<Period>)
    ensures forall t :: (r.Some? && r.value.Has(t)) <==> (p1.Has(t) && p2.Has(t))
  {
    if p1.start >= p2.end then None
    else if p1.end <= p2.start then None
    else
      var start := if p1.start < p2.start then p2.start else p1.start;
      var end := if p1.end < p2.end then p1.end else p2.end;
      Some(Period(start, end))
  }

  /** From an hour before the scheduled start to an hour and a half after it. */
  function Window(scheduledStart: int): Period {
    Period(scheduledStart - 60, scheduledStart + 90)
  }

  /** What is left of one slot: itself, or the part before and the part after the window. */
  function Pieces<T>(slot: Slot<T>, window: Period): (r: seq<Slot<T>>) {
    match ClipTimePeriod(slot.period, window)
    case None => [slot]
    case Some(clip) =>
      (if clip.start > slot.period.start then [slot.(period := slot.period.(end := clip.start))] else [])
      + (if clip.end < slot.period.end then [slot.(period := slot.period.(start := clip.end))] else [])
  }

  function Net<T>(slots: seq<Slot<T>>, window: Period): (r: seq<Slot<T>>) {
    if slots == [] then [] else Net(slots[..|slots| - 1], window) + Pieces(slots[|slots| - 1], window)
  }

  /** The excluded parts of the slots. */
  function Excluded<T>(slots: seq<Slot<T>>, window: Period): (r: seq<Slot<T>>) {
    if slots == [] then [] else Excluded(slots[..|slots| - 1], window) + Clipped(slots[|slots| - 1], window)
  }

  function Clipped<T>(slot: Slot<T>, window: Period): (r: seq<Slot<T>>) {
    match ClipTimePeriod(slot.period, window)
    case None => []
    case Some(clip) => [slot.(period := clip)]
  }

  /** How many of the slots cover minute t. */
  function Cover<T>(slots: seq<Slot<T>>, t: int): (n: nat) {
    if slots == [] then 0
    else Cover(slots[..|slots| - 1], t) + (if slots[|slots| - 1].period.Has(t) then 1 else 0)
  }

  /** The minutes of all the slots. */
  function Total<T>(slots: seq<Slot<T>>): (n: nat) {
    if slots == [] then 0 else Total(slots[..|slots| - 1]) + slots[|slots| - 1].period.Minutes()
  }

  lemma {:induction false} CoverConcat<T>(a: seq<Slot<T>>, b: seq<Slot<T>>, t: int)
    ensures Cover(a + b, t) == Cover(a, t) + Cover(b, t)
  {
    if b == [] {
      assert a + b == a;
    } else {
      CoverConcat(a, b[..|b| - 1], t);
      assert (a + b)[..|a + b| - 1] == a + b[..|b| - 1];
    }
  }

  lemma {:induction false} TotalConcat<T>(a: seq<Slot<T>>, b: seq<Slot<T>>)
    ensures Total(a + b) == Total(a) + Total(b)
  {
    if b == [] {
      assert a + b == a;
    } else {
      TotalConcat(a, b[..|b| - 1]);
      assert (a + b)[..|a + b| - 1] == a + b[..|b| - 1];
    }
  }

  lemma CoverPieces<T>(slot: Slot<T>, window: Period, t: int)
    requires window.start <= window.end
    ensures Cover(Pieces(slot, window), t) == if slot.period.Has(t) && !window.Has(t) then 1 else 0
  {
    match ClipTimePeriod(slot.period, window)
    case None =>
      CoverOne(slot, t);
    case Some(clip) =>
      var left := slot.(period := slot.period.(end := clip.start));
      var right := slot.(period := slot.period.(start := clip.end));
      CoverOne(left, t);
      CoverOne(right, t);
      CoverConcat([left], [right], t);
  }

  lemma CoverOne<T>(slot: Slot<T>, t: int)
    ensures Cover([slot], t) == if slot.period.Has(t) then 1 else 0
  {
    assert [slot][..0] == [];
  }

  lemma TotalOne<T>(slot: Slot<T>)
    ensures Total([slot]) == slot.period.Minutes()
  {
    assert [slot][..0] == [];
  }

  /**
   Subtraction is exact: outside the window every minute is covered as often as before, and
   inside it not at all.
   */
  lemma {:induction false} SubtractionIsExact<T>(slots: seq<Slot<T>>, window: Period, t: int)
    requires window.start <= window.end
    ensures Cover(Net(slots, window), t) == if window.Has(t) then 0 else Cover(slots, t)
  {
    if slots != [] {
      var init, last := slots[..|slots| - 1], slots[|slots| - 1];
      SubtractionIsExact(init, window, t);
      CoverPieces(last, window, t);
      CoverConcat(Net(init, window), Pieces(last, window), t);
    }
  }

  lemma {:induction false} ExcludedIsExact<T>(slots: seq<Slot<T>>, window: Period, t: int)
    ensures Cover(Excluded(slots, window), t) == if window.Has(t) then Cover(slots, t) else 0
  {
    if slots != [] {
      var init, last := slots[..|slots| - 1], slots[|slots| - 1];
      ExcludedIsExact(init, window, t);
      CoverConcat(Excluded(init, window), Clipped(last, window), t);
      var clip := ClipTimePeriod(last.period, window);
      if clip.Some? { CoverOne(last.(period := clip.value), t); }
    }
  }

  lemma TotalPieces<T>(slot: Slot<T>, window: Period)
    requires window.start <= window.end
    ensures Total(Pieces(slot, window)) + Total(Clipped(slot, window)) == slot.period.Minutes()
  {
    match ClipTimePeriod(slot.period, window)
    case None =>
      TotalOne(slot);
    case Some(clip) =>
      var left := slot.(period := slot.period.(end := clip.start));
      var right := slot.(period := slot.period.(start := clip.end));
      TotalOne(left);
      TotalOne(right);
      TotalConcat([left], [right]);
      TotalOne(slot.(period := clip));
  }

  /** Minutes are conserved between the kept and the excluded parts. */
  lemma {:induction false} MinutesAreConserved<T>(slots: seq<Slot<T>>, window: Period)
    requires window.start <= window.end
    ensures Total(Net(slots, window)) + Total(Excluded(slots, window)) == Total(slots)
  {
    if slots != [] {
      var init, last := slots[..|slots| - 1], slots[|slots| - 1];
      MinutesAreConserved(init, window);
      TotalPieces(last, window);
      TotalConcat(Net(init, window), Pieces(last, window));
      TotalConcat(Excluded(init, window), Clipped(last, window));
    }
  }

  /** In time order and without overlap. */
  ghost predicate SortedDisjoint<T>(slots: seq<Slot<T>>) {
    && (forall i :: 0 <= i < |slots| ==> slots[i].period.start <= slots[i].period.end)
    && (forall i, j :: 0 <= i < j < |slots| ==> slots[i].period.end <= slots[j].period.start)
  }

  /** Every slot ends by `bound`. */
  ghost predicate EndBy<T>(slots: seq<Slot<T>>, bound: int) {
    forall i :: 0 <= i < |slots| ==> slots[i].period.end <= bound
  }

  lemma SortedConcat<T>(a: seq<Slot<T>>, b: seq<Slot<T>>, bound: int)
    requires SortedDisjoint(a) && SortedDisjoint(b) && EndBy(a, bound)
    requires forall j :: 0 <= j < |b| ==> bound <= b[j].period.start
    ensures SortedDisjoint(a + b)
  {
  }

  lemma PiecesAreSorted<T>(slot: Slot<T>, window: Period)
    requires slot.period.start <= slot.period.end && window.start <= window.end
    ensures SortedDisjoint(Pieces(slot, window)) && EndBy(Pieces(slot, window), slot.period.end)
    ensures forall p :: p in Pieces(slot, window) ==> p.details == slot.details && slot.period.start <= p.period.start
  {
  }

  lemma {:induction false} NetEndsBy<T>(slots: seq<Slot<T>>, window: Period, bound: int)
    requires SortedDisjoint(slots) && EndBy(slots, bound) && window.start <= window.end
    ensures EndBy(Net(slots, window), bound)
  {
    if slots != [] {
      NetEndsBy(slots[..|slots| - 1], window, bound);
      PiecesAreSorted(slots[|slots| - 1], window);
    }
  }

  /** Sorted and disjoint slots stay so. */
  lemma {:induction false} NetStaysSorted<T>(slots: seq<Slot<T>>, window: Period)
    requires SortedDisjoint(slots) && window.start <= window.end
    ensures SortedDisjoint(Net(slots, window))
  {
    if slots != [] {
      var init, last := slots[..|slots| - 1], slots[|slots| - 1];
      NetStaysSorted(init, window);
      NetEndsBy(init, window, last.period.start);
      PiecesAreSorted(last, window);
      SortedConcat(Net(init, window), Pieces(last, window), last.period.start);
    }
  }

  /** Whatever part of a slot is kept is not empty, unless the slot itself was empty and kept whole. */
  lemma {:induction false} NoEmptySlotAppears<T>(slots: seq<Slot<T>>, window: Period, p: Slot<T>)
    requires p in Net(slots, window) && p.period.Minutes() == 0
    ensures p in slots
  {
    if p !in Pieces(slots[|slots| - 1], window) {
      NoEmptySlotAppears(slots[..|slots| - 1], window, p);
    }
  }

  /** Every net slot lies within a slot of the input and has its details. */
  lemma {:induction false} NetSlotIsPart<T>(slots: seq<Slot<T>>, window: Period, p: Slot<T>)
    requires p in Net(slots, window)
    ensures exists s :: s in slots && p.details == s.details && s.period.start <= p.period.start && p.period.end <= s.period.end
  {
    var last := slots[|slots| - 1];
    if p in Pieces(last, window) {
      assert last in slots && p.details == last.details;
    } else {
      NetSlotIsPart(slots[..|slots| - 1], window, p);
    }
  }

  lemma NetSnoc<T>(slots: seq<Slot<T>>, last: Slot<T>, window: Period)
    ensures Net(slots + [last], window) == Net(slots, window) + Pieces(last, window)
  {
    assert (slots + [last])[..|slots|] == slots;
  }

  /** Slots clear of the window stay whole. */
  lemma ClearSlotsStay<T>(slots: seq<Slot<T>>, more: seq<Slot<T>>, window: Period)
    requires |more| <= 2 && forall i :: 0 <= i < |more| ==> Pieces(more[i], window) == [more[i]]
    ensures Net(slots + more, window) == Net(slots, window) + more
  {
    if |more| == 0 {
      assert slots + more == slots;
    } else if |more| == 1 {
      assert more == [more[0]];
      NetSnoc(slots, more[0], window);
    } else {
      assert more == [more[0]] + [more[1]];
      Associate(slots, [more[0]], [more[1]]);
      NetSnoc(slots, more[0], window);
      NetSnoc(slots + [more[0]], more[1], window);
      Associate(Net(slots, window), [more[0]], [more[1]]);
    }
  }

  lemma PiecesAreClear<T>(slot: Slot<T>, window: Period)
    requires window.start <= window.end
    ensures forall i :: 0 <= i < |Pieces(slot, window)| ==> Pieces(Pieces(slot, window)[i], window) == [Pieces(slot, window)[i]]
  {
  }

  /** Subtracting the same window again changes nothing. */
  lemma {:induction false} SubtractingTwice<T>(slots: seq<Slot<T>>, window: Period)
    requires window.start <= window.end
    ensures Net(Net(slots, window), window) == Net(slots, window)
  {
    if slots != [] {
      var init, last := slots[..|slots| - 1], slots[|slots| - 1];
      SubtractingTwice(init, window);
      PiecesAreClear(last, window);
      ClearSlotsStay(Net(init, window), Pieces(last, window), window);
    }
  }

  lemma NetNext<T>(slots: seq<Slot<T>>, window: Period, i: nat)
    requires i < |slots|
    ensures Net(slots[..i + 1], window) == Net(slots[..i], window) + Pieces(slots[i], window)
  {
    assert slots[..i + 1][..i] == slots[..i];
  }

  /** The loop over the customer's available slots. */
  method ExcludeScheduled<T>(origAvail: seq<Slot<T>>, scheduledStart: int) returns (net: seq<Slot<T>>)
    ensures net == Net(origAvail, Window(scheduledStart))
    ensures forall t :: Cover(net, t) == if scheduledStart - 60 <= t < scheduledStart + 90 then 0 else Cover(origAvail, t)
    ensures SortedDisjoint(origAvail) ==> SortedDisjoint(net)
  {
    net := [];
    var slotToExclude := Window(scheduledStart);
    var ti := 0;
    while ti < |origAvail|
      invariant 0 <= ti <= |origAvail|
      invariant net == Net(origAvail[..ti], slotToExclude)
    {
      var slot := origAvail[ti];
      NetNext(origAvail, slotToExclude, ti);
      match ClipTimePeriod(slot.period, slotToExclude) {
        case None =>
          net := net + [slot];
        case Some(clip) =>
          if clip.start > slot.period.start {
            net := net + [slot.(period := slot.period.(end := clip.start))];
          }
          if clip.end < slot.period.end {
            net := net + [slot.(period := slot.period.(start := clip.end))];
          }
      }
      ti := ti + 1;
    }
    assert origAvail[..ti] == origAvail;
    forall t
      ensures Cover(net, t) == if scheduledStart - 60 <= t < scheduledStart + 90 then 0 else Cover(origAvail, t)
    {
      SubtractionIsExact(origAvail, slotToExclude, t);
    }
    if SortedDisjoint(origAvail) { NetStaysSorted(origAvail, slotToExclude); }
  }
}
