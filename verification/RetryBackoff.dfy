/**
 Retry back-off for automatic planning: one Redis sorted set per job remembers when the next
 attempt is due, and expires two hours and one minute after the first attempt. Times are whole
 seconds.
 */
module RetryBackoff {
  import opened Common

  /** An entry of the sorted set: its member is the time the next attempt is due. */
  datatype Entry = Entry(due: int, score: int)

  /** One key. It exists while it has entries and has not expired. */
  datatype Store = Store(entries: seq<Entry>, expiresAt: int)

  const LIFETIME: int := 2 * 60 * 60 + 60

  predicate Exists(s: Store, now: int) {
    s.entries != [] && now < s.expiresAt
  }

  /** Minutes to wait after so many attempts. */
  function WaitMinutes(times: nat): int {
    if times == 0 then 10 else if times == 1 then 30 else if times == 2 then 60 else if times == 3 then 120 else 99990
  }

  function NextTime(now: int, times: nat): int {
    now + 60 * WaitMinutes(times)
  }

  function Remove(entries: seq<Entry>, due: int): (r: seq<Entry>) {
    if entries == [] then []
    else if Last(entries).due == due then Remove(Init(entries), due)
    else Remove(Init(entries), due) + [Last(entries)]
  }

  function InsertByScore(entries: seq<Entry>, e: Entry): (r: seq<Entry>) {
    if entries == [] || Last(entries).score <= e.score then entries + [e]
    else InsertByScore(Init(entries), e) + [Last(entries)]
  }

  /** Adds a member, or gives it a new score; the set is kept in order of scores. */
  function ZAdd(entries: seq<Entry>, due: int, score: int): (r: seq<Entry>) {
    InsertByScore(Remove(entries, due), Entry(due, score))
  }

  datatype Polled = Polled(store: Store, granted: bool)

  function Poll(s: Store, now: int): (p: Polled) {
    if !Exists(s, now) then
      Polled(Store(ZAdd([], NextTime(now, 0), 1), now + LIFETIME), true)
    else if now >= Last(s.entries).due then
      Polled(s.(entries := ZAdd(s.entries, NextTime(now, |s.entries|), |s.entries| + 1)), true)
    else
      Polled(s, false)
  }

  // ------------------------------------------------------------ one key lifetime

  /** When the i-th entry was made. */
  function MadeAt(s: Store, i: nat): int
    requires i < |s.entries|
  {
    s.entries[i].due - 60 * WaitMinutes(i)
  }

  /**
   What a key looks like at any time: the entries are scored 1, 2, and so on, the first was made
   when the key was, and each later one no sooner than the one before it fell due.
   */
  ghost predicate Valid(s: Store) {
    && (forall i :: 0 <= i < |s.entries| ==> s.entries[i].score == i + 1)
    && (s.entries != [] ==> MadeAt(s, 0) == s.expiresAt - LIFETIME && MadeAt(s, |s.entries| - 1) < s.expiresAt)
    && (forall i :: 0 <= i < |s.entries| - 1 ==> s.entries[i].due <= MadeAt(s, i + 1))
  }

  /** The waits of four attempts do not fit a fifth into one lifetime: the last tier is never reached. */
  lemma AtMostFour(s: Store)
    requires Valid(s)
    ensures |s.entries| <= 4
  {
    if |s.entries| > 4 {
      LaterMadeLater(s, 4, |s.entries| - 1);
    }
  }

  lemma {:induction false} LaterMadeLater(s: Store, i: nat, j: nat)
    requires Valid(s) && i <= j < |s.entries|
    ensures MadeAt(s, i) <= MadeAt(s, j)
  {
    if i < j {
      LaterMadeLater(s, i, j - 1);
      assert s.entries[j - 1].due <= MadeAt(s, j);
    }
  }

  /** Entries increase strictly in time and in score. */
  lemma EntriesIncrease(s: Store, i: nat, j: nat)
    requires Valid(s) && i < j < |s.entries|
    ensures s.entries[i].due < s.entries[j].due && s.entries[i].score < s.entries[j].score
  {
    LaterMadeLater(s, i + 1, j);
    assert s.entries[i].due <= MadeAt(s, i + 1);
  }

  lemma {:induction false} RemoveNothing(entries: seq<Entry>, due: int)
    requires forall i :: 0 <= i < |entries| ==> entries[i].due != due
    ensures Remove(entries, due) == entries
  {
    if entries != [] {
      var init, last := Init(entries), Last(entries);
      assert entries == init + [last] && last == entries[|entries| - 1];
      assert forall i :: 0 <= i < |init| ==> init[i] == entries[i];
      RemoveNothing(init, due);
    }
  }

  lemma ZAddAtEnd(entries: seq<Entry>, due: int, score: int)
    requires forall i :: 0 <= i < |entries| ==> entries[i].due != due && entries[i].score <= score
    ensures ZAdd(entries, due, score) == entries + [Entry(due, score)]
  {
    RemoveNothing(entries, due);
  }

  /** In a valid key, an attempt adds its entry at the end: its member is new and its score the highest. */
  lemma AttemptAppends(s: Store, now: int, wait: int)
    requires Valid(s) && s.entries != [] && now >= Last(s.entries).due && wait > 0
    ensures ZAdd(s.entries, now + wait, |s.entries| + 1) == s.entries + [Entry(now + wait, |s.entries| + 1)]
  {
    var n := |s.entries|;
    forall i | 0 <= i < n ensures s.entries[i].due != now + wait && s.entries[i].score <= n + 1 {
      if i < n - 1 { EntriesIncrease(s, i, n - 1); }
    }
    ZAddAtEnd(s.entries, now + wait, n + 1);
  }

  /** The key with one more attempt. */
  function Added(s: Store, now: int): Store {
    Store(s.entries + [Entry(NextTime(now, |s.entries|), |s.entries| + 1)], s.expiresAt)
  }

  /** A poll makes a new key, adds an entry that falls due later, or changes nothing. */
  lemma PollCases(s: Store, now: int)
    requires Valid(s)
    ensures var p := Poll(s, now);
      if !Exists(s, now) then p == Polled(Store([Entry(now + 600, 1)], now + LIFETIME), true)
      else if now < Last(s.entries).due then p == Polled(s, false)
      else p == Polled(Added(s, now), true)
  {
    if Exists(s, now) && now >= Last(s.entries).due { AttemptAppends(s, now, 60 * WaitMinutes(|s.entries|)); }
  }

  lemma AddingKeepsValid(s: Store, now: int)
    requires Valid(s) && Exists(s, now) && now >= Last(s.entries).due
    ensures Valid(Added(s, now))
    ensures |s.entries| <= 3
  {
    var n := |s.entries|;
    var next := Added(s, now);
    assert forall i :: 0 <= i < n ==> next.entries[i] == s.entries[i];
    assert MadeAt(next, 0) == MadeAt(s, 0) && MadeAt(next, n) == now;
    forall i | 0 <= i < n ensures next.entries[i].due <= MadeAt(next, i + 1) {
      if i < n - 1 { assert s.entries[i].due <= MadeAt(s, i + 1); }
    }
    AtMostFour(next);
  }

  /** Any poll leaves a valid key, and grants exactly when there is none or the last entry is due. */
  lemma PollKeepsValid(s: Store, now: int)
    requires Valid(s)
    ensures var p := Poll(s, now);
      && Valid(p.store)
      && (p.granted <==> !Exists(s, now) || now >= Last(s.entries).due)
      && (p.granted ==> now < Last(p.store.entries).due <= now + 120 * 60)
  {
    PollCases(s, now);
    if Exists(s, now) && now >= Last(s.entries).due { AddingKeepsValid(s, now); }
  }

  /**
   A poll that finds no live key makes one for 7260 seconds, with the next attempt due in ten
   minutes. One that finds the last entry due adds an entry: after the second attempt the next is
   due in half an hour, after the third in one hour, after the fourth in two.
   */
  lemma PollDoes(s: Store, now: int)
    requires Valid(s)
    ensures s.entries == [] || s.expiresAt <= now ==> Poll(s, now) == Polled(Store([Entry(now + 600, 1)], now + 7260), true)
    ensures s.entries != [] && now < s.expiresAt && now < Last(s.entries).due ==> Poll(s, now) == Polled(s, false)
    ensures s.entries != [] && now < s.expiresAt && Last(s.entries).due <= now ==>
      var n := |s.entries|;
      && n <= 3
      && Poll(s, now) == Polled(Store(s.entries + [Entry(now + (if n == 1 then 1800 else if n == 2 then 3600 else 7200), n + 1)], s.expiresAt), true)
  {
    PollCases(s, now);
    if Exists(s, now) && now >= Last(s.entries).due { AddingKeepsValid(s, now); }
  }

  // ------------------------------------------------------------ whole runs

  /** One granted attempt: when, in the lifetime begun when, and the how manieth of that lifetime. */
  datatype Attempt = Attempt(time: int, lifeStart: int, nth: nat)

  /** The store after the polls. */
  function After(s: Store, polls: seq<int>): (r: Store) {
    if polls == [] then s else Poll(After(s, Init(polls)), Last(polls)).store
  }

  /** The attempts the polls are granted. */
  function Attempts(s: Store, polls: seq<int>): (r: seq<Attempt>) {
    if polls == [] then []
    else Noted(Attempts(s, Init(polls)), Poll(After(s, Init(polls)), Last(polls)), Last(polls))
  }

  predicate NonDecreasing(polls: seq<int>) {
    forall i, j :: 0 <= i < j < |polls| ==> polls[i] <= polls[j]
  }

  /** An attempt and the next one: the next of the same lifetime after the wait, or the first of a later lifetime. */
  predicate Follows(a: Attempt, b: Attempt) {
    if b.nth == 1 then b.time == b.lifeStart && b.time >= a.lifeStart + LIFETIME && b.time > a.time
    else b.lifeStart == a.lifeStart && b.nth == a.nth + 1 && b.time >= NextTime(a.time, a.nth - 1)
  }

  /** Attempts earlier in a lifetime leave this much time before the nth. */
  predicate Placed(a: Attempt) {
    && 1 <= a.nth <= 4 && a.lifeStart <= a.time < a.lifeStart + LIFETIME
    && (a.nth >= 2 ==> a.time >= a.lifeStart + 600)
    && (a.nth >= 3 ==> a.time >= a.lifeStart + 2400)
    && (a.nth >= 4 ==> a.time >= a.lifeStart + 6000)
    && (a.nth == 1 ==> a.time == a.lifeStart)
  }

  ghost predicate WellSpaced(as_: seq<Attempt>) {
    && (forall i :: 0 <= i < |as_| ==> Placed(as_[i]))
    && (forall i :: 0 <= i < |as_| - 1 ==> Follows(as_[i], as_[i + 1]))
  }

  /** The last attempt is the last entry of the key. */
  ghost predicate Recorded(as_: seq<Attempt>, s: Store) {
    as_ != [] ==>
      var a := Last(as_);
      s.entries != [] && a.nth == |s.entries| && a.lifeStart == s.expiresAt - LIFETIME && a.time == MadeAt(s, |s.entries| - 1)
  }

  lemma LastEntryIsPlaced(s: Store)
    requires Valid(s) && s.entries != []
    ensures Placed(Attempt(MadeAt(s, |s.entries| - 1), s.expiresAt - LIFETIME, |s.entries|))
  {
    AtMostFour(s);
    if |s.entries| >= 2 { assert s.entries[0].due <= MadeAt(s, 1); }
    if |s.entries| >= 3 { assert s.entries[1].due <= MadeAt(s, 2); }
    if |s.entries| >= 4 { assert s.entries[2].due <= MadeAt(s, 3); }
  }

  /** The attempt that a granted poll is. */
  function AttemptAt(now: int, s: Store): Attempt {
    Attempt(now, s.expiresAt - LIFETIME, |s.entries|)
  }

  /** A granted poll is the last entry of its key, and follows the entry before it. */
  lemma GrantFollows(s: Store, now: int)
    requires Valid(s) && Poll(s, now).granted
    ensures var a := AttemptAt(now, Poll(s, now).store);
      && Recorded([a], Poll(s, now).store) && Placed(a)
      && (s.entries != [] && now >= MadeAt(s, |s.entries| - 1) ==> Follows(AttemptAt(MadeAt(s, |s.entries| - 1), s), a))
  {
    PollCases(s, now);
    PollKeepsValid(s, now);
    LastEntryIsPlaced(Poll(s, now).store);
  }

  /** The attempts so far with the one the poll is granted, if it is. */
  function Noted(done: seq<Attempt>, p: Polled, now: int): seq<Attempt> {
    if p.granted then done + [AttemptAt(now, p.store)] else done
  }

  lemma OnePoll(before: Store, done: seq<Attempt>, now: int)
    requires Valid(before) && WellSpaced(done) && Recorded(done, before)
    requires done != [] ==> Last(done).time <= now
    ensures var p := Poll(before, now); var noted := Noted(done, p, now);
      && Valid(p.store) && WellSpaced(noted) && Recorded(noted, p.store)
      && (noted != [] ==> Last(noted).time <= now)
  {
    PollKeepsValid(before, now);
    if Poll(before, now).granted {
      GrantFollows(before, now);
      Append(done, AttemptAt(now, Poll(before, now).store));
    } else {
      PollCases(before, now);
    }
  }

  /** Every run of polls, in time order, from any valid key, is granted well-spaced attempts. */
  lemma {:induction false} RunsAreWellSpaced(s: Store, polls: seq<int>)
    requires Valid(s) && NonDecreasing(polls)
    ensures Valid(After(s, polls)) && WellSpaced(Attempts(s, polls)) && Recorded(Attempts(s, polls), After(s, polls))
    ensures Attempts(s, polls) != [] ==> polls != [] && Last(Attempts(s, polls)).time <= Last(polls)
  {
    if polls != [] {
      RunsAreWellSpaced(s, Init(polls));
      OnePoll(After(s, Init(polls)), Attempts(s, Init(polls)), Last(polls));
    }
  }

  lemma Append(done: seq<Attempt>, a: Attempt)
    requires WellSpaced(done) && Placed(a) && (done != [] ==> Follows(Last(done), a))
    ensures WellSpaced(done + [a])
  {
    var all := done + [a];
    forall i | 0 <= i < |all| - 1 ensures Follows(all[i], all[i + 1]) {
      if i < |done| - 1 { assert Follows(done[i], done[i + 1]); }
    }
  }

  /** One key lifetime grants at most four attempts: an attempt four places later belongs to a later lifetime. */
  lemma FourPerLifetime(as_: seq<Attempt>, i: nat)
    requires WellSpaced(as_) && i + 4 < |as_|
    ensures as_[i + 4].lifeStart >= as_[i].lifeStart + LIFETIME
  {
    assert forall k :: i <= k < i + 4 ==> Follows(as_[k], as_[k + 1]);
    assert Follows(as_[i], as_[i + 1]) && Follows(as_[i + 1], as_[i + 2]) && Follows(as_[i + 2], as_[i + 3]) && Follows(as_[i + 3], as_[i + 4]);
    assert Placed(as_[i]) && Placed(as_[i + 4]);
  }

  /** How attempts i to j are spread: all in one lifetime, or enough time before the lifetime of j. */
  predicate Spread(a: Attempt, b: Attempt, count: nat) {
    if a.lifeStart == b.lifeStart
    then b.nth == a.nth + count - 1 && b.time - a.time >= (if a.nth == 1 then 600 else 1800) * (count - 1)
    else LIFETIME * (count - b.nth) <= 4 * (b.lifeStart - a.time) + 16860
  }

  lemma {:induction false} AttemptsSpread(as_: seq<Attempt>, i: nat, j: nat)
    requires WellSpaced(as_) && i <= j < |as_|
    ensures Spread(as_[i], as_[j], j - i + 1) && as_[i].lifeStart <= as_[j].lifeStart
  {
    assert Placed(as_[j]);
    if i < j {
      AttemptsSpread(as_, i, j - 1);
      assert Follows(as_[j - 1], as_[j]) && Placed(as_[i]) && Placed(as_[j - 1]);
      SpreadStep(as_[i], as_[j - 1], as_[j], j - i);
    }
  }

  lemma SpreadStep(a: Attempt, b: Attempt, c: Attempt, count: nat)
    requires Placed(a) && Placed(b) && Placed(c) && Follows(b, c) && count >= 1
    requires Spread(a, b, count) && a.lifeStart <= b.lifeStart
    ensures Spread(a, c, count + 1) && a.lifeStart <= c.lifeStart
  {
    if a.lifeStart == b.lifeStart { assert count <= 4; }
  }

  lemma SpreadIsBounded(a: Attempt, b: Attempt, count: nat)
    requires Placed(a) && Placed(b) && Spread(a, b, count) && count >= 1 && a.lifeStart <= b.lifeStart
    ensures LIFETIME * count <= 4 * (b.time - a.time) + 4 * LIFETIME
  {
    if a.lifeStart == b.lifeStart { assert count <= 4; }
  }

  /** Attempts i to j of any run: at most 4 * (W / 7260 + 1) of them in W seconds. */
  lemma AttemptsAreBounded(s: Store, polls: seq<int>, as_: seq<Attempt>, i: nat, j: nat)
    requires Valid(s) && NonDecreasing(polls) && as_ == Attempts(s, polls) && i <= j < |as_|
    ensures 7260 * (j - i + 1) <= 4 * (as_[j].time - as_[i].time) + 4 * 7260
  {
    RunsAreWellSpaced(s, polls);
    AttemptsSpread(as_, i, j);
    SpreadIsBounded(as_[i], as_[j], j - i + 1);
  }

  lemma RunSnoc(s: Store, polls: seq<int>, now: int)
    ensures After(s, polls + [now]) == Poll(After(s, polls), now).store
    ensures Attempts(s, polls + [now]) == Noted(Attempts(s, polls), Poll(After(s, polls), now), now)
  {
    assert Init(polls + [now]) == polls;
  }

  /** A valid key with n entries, the last due at `due`, of the lifetime begun at `start`. */
  ghost predicate Stands(s: Store, n: nat, due: int, start: int) {
    Valid(s) && |s.entries| == n > 0 && Last(s.entries).due == due && s.expiresAt == start + LIFETIME
  }

  /** One more poll, that begins a new lifetime. */
  lemma NewLife(s: Store, polls: seq<int>, now: int)
    requires Valid(After(s, polls)) && !Exists(After(s, polls), now)
    ensures Stands(After(s, polls + [now]), 1, now + 600, now)
    ensures Attempts(s, polls + [now]) == Attempts(s, polls) + [Attempt(now, now, 1)]
  {
    RunSnoc(s, polls, now);
    PollCases(After(s, polls), now);
  }

  /** One more poll, that is granted in the present lifetime. */
  lemma SameLife(s: Store, polls: seq<int>, now: int, n: nat, due: int, start: int)
    requires Stands(After(s, polls), n, due, start) && due <= now < start + LIFETIME
    ensures Stands(After(s, polls + [now]), n + 1, NextTime(now, n), start)
    ensures Attempts(s, polls + [now]) == Attempts(s, polls) + [Attempt(now, start, n + 1)]
  {
    RunSnoc(s, polls, now);
    PollCases(After(s, polls), now);
    AddingKeepsValid(After(s, polls), now);
  }

  /** A lifetime that is polled at the earliest times grants all its four attempts within 6000 seconds. */
  lemma FourInALifetime(s: Store, polls: seq<int>, t: int)
    requires Valid(After(s, polls)) && !Exists(After(s, polls), t)
    ensures Attempts(s, polls + [t] + [t + 600] + [t + 2400] + [t + 6000])
         == Attempts(s, polls) + [Attempt(t, t, 1)] + [Attempt(t + 600, t, 2)] + [Attempt(t + 2400, t, 3)] + [Attempt(t + 6000, t, 4)]
  {
    NewLife(s, polls, t);
    SameLife(s, polls + [t], t + 600, 1, t + 600, t);
    SameLife(s, polls + [t] + [t + 600], t + 2400, 2, t + 2400, t);
    SameLife(s, polls + [t] + [t + 600] + [t + 2400], t + 6000, 3, t + 6000, t);
  }

  /**
   The division in the bound must not be rounded down: the last attempt of one lifetime and the
   four of the next are five in 6001 seconds, less than one lifetime.
   */
  lemma FiveWithinOneLifetime(s: Store, t: int)
    requires Valid(s) && !Exists(s, t)
    ensures var polls := [t] + [t + 7259] + [t + 7260] + [t + 7860] + [t + 9660] + [t + 13260];
      var as_ := Attempts(s, polls);
      |as_| == 6 && as_[1].time == t + 7259 && as_[5].time == t + 7259 + 6001
  {
    assert After(s, []) == s && Attempts(s, []) == [];
    NewLife(s, [], t);
    assert [] + [t] == [t];
    SameLife(s, [t], t + 7259, 1, t + 600, t);
    FourInALifetime(s, [t] + [t + 7259], t + 7260);
  }

  // ------------------------------------------------------------ the code

  class RetryStore {
    var entries: seq<Entry>
    var expiresAt: int

    constructor ()
      ensures entries == [] && Valid(View())
    {
      entries, expiresAt := [], 0;
    }

    function View(): Store
      reads this
    {
      Store(entries, expiresAt)
    }

    /** Whether a job may be attempted now; if so, notes when the next attempt is due. */
    method DelaySetting(now: int) returns (flag: bool)
      requires Valid(View())
      modifies this
      ensures Valid(View())
      ensures View() == Poll(old(View()), now).store && flag == Poll(old(View()), now).granted
      ensures flag <==> !Exists(old(View()), now) || now >= Last(old(entries)).due
      ensures flag ==> now < Last(entries).due <= now + 120 * 60
    {
      PollKeepsValid(View(), now);
      PollCases(View(), now);
      flag := false;
      if !Exists(View(), now) {
        flag := true;
        var nextTime := NextTime(now, 0);
        entries := ZAdd([], nextTime, 1);
        expiresAt := now + LIFETIME;
      } else {
        var timeLimit := Last(entries);
        if now >= timeLimit.due {
          flag := true;
          var nextTime := NextTime(now, |entries|);
          entries := ZAdd(entries, nextTime, |entries| + 1);
        }
      }
    }
  }
}
