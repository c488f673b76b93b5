/**
 Travel times with a bounded cache of least-recently-used entries in front of the direct
 computation. One cache is shared by all routers of the process.
 */
module TravelCache {
  import opened Common

  datatype Kind = Unstated | Home | Other

  datatype Location = Location(lon: real, lat: real, kind: Kind)

  /** The cache key: coordinates only. */
  datatype Key = Key(lon1: real, lat1: real, lon2: real, lat2: real)

  /** A router's settings; `distance` is the great-circle distance in kilometres. */
  datatype Config = Config(speed: real, minMinutes: real, maxMinutes: Option<real>, distance: Key -> real)

  function KeyOf(a: Location, b: Location): Key {
    Key(a.lon, a.lat, b.lon, b.lat)
  }

  predicate MinBelowMax(cfg: Config) {
    cfg.maxMinutes.Some? ==> cfg.minMinutes <= cfg.maxMinutes.value
  }

  predicate Homely(a: Location, b: Location) {
    a.kind == Home || b.kind == Home
  }

  /** The direct router; None when it divides by a speed of zero. */
  function Direct(cfg: Config, a: Location, b: Location): (minutes: Option<real>)
    ensures minutes.None? ==> cfg.speed == 0.0 && !Homely(a, b) && (a.lon != b.lon || a.lat != b.lat)
    ensures MinBelowMax(cfg) && minutes.Some? ==>
      || minutes.value == 0.0
      || (cfg.minMinutes <= minutes.value && (cfg.maxMinutes.Some? ==> minutes.value <= cfg.maxMinutes.value))
  {
    if a.lon == b.lon && a.lat == b.lat then Some(0.0)
    else if Homely(a, b) then Some(0.0)
    else if cfg.speed == 0.0 then None
    else Some(Clamped(cfg, cfg.distance(KeyOf(a, b)) / (cfg.speed / 60.0)))
  }

  function Clamped(cfg: Config, t: real): real {
    if t < cfg.minMinutes then cfg.minMinutes
    else if cfg.maxMinutes.Some? && t > cfg.maxMinutes.value then cfg.maxMinutes.value
    else t
  }

  lemma QuotientIsUnique(x: real, y: real, speed: real)
    requires speed != 0.0 && x * speed == y * speed
    ensures x == y
  {
    assert (x - y) * speed == 0.0;
  }

  /**
   Between different places, none of them a home, it is the time the distance takes at the speed
   in kilometres an hour, kept between the two bounds; else no time at all.
   */
  lemma DirectIs(cfg: Config, a: Location, b: Location, raw: real)
    requires cfg.speed != 0.0 && raw * cfg.speed == 60.0 * cfg.distance(Key(a.lon, a.lat, b.lon, b.lat))
    ensures Direct(cfg, a, b) == Some(
      if (a.lon == b.lon && a.lat == b.lat) || a.kind == Home || b.kind == Home then 0.0
      else if raw < cfg.minMinutes then cfg.minMinutes
      else if cfg.maxMinutes.Some? && cfg.maxMinutes.value < raw then cfg.maxMinutes.value
      else raw)
  {
    var d, perMinute := cfg.distance(KeyOf(a, b)), cfg.speed / 60.0;
    var t := d / perMinute;
    assert t * perMinute == d;
    assert t * cfg.speed == 60.0 * (t * perMinute);
    QuotientIsUnique(t, raw, cfg.speed);
  }

  /** The key tells trips apart by their four coordinates and nothing else. */
  lemma SameKeyIff(s: Trip, t: Trip)
    ensures KeyOf(s.a, s.b) == KeyOf(t.a, t.b) <==>
      s.a.lon == t.a.lon && s.a.lat == t.a.lat && s.b.lon == t.b.lon && s.b.lat == t.b.lat
  {
  }

  /** The time between the two places if neither is a home. */
  function HomeFree(cfg: Config, k: Key): Option<real> {
    Direct(cfg, Location(k.lon1, k.lat1, Unstated), Location(k.lon2, k.lat2, Unstated))
  }

  /** Two trips between the same places take the same time exactly when both or neither involve a home, or no time passes anyway. */
  lemma SameTimeIff(cfg: Config, s: Trip, t: Trip)
    requires KeyOf(s.a, s.b) == KeyOf(t.a, t.b)
    ensures Direct(cfg, s.a, s.b) == Direct(cfg, t.a, t.b) <==>
      Homely(s.a, s.b) == Homely(t.a, t.b) || HomeFree(cfg, KeyOf(s.a, s.b)) == Some(0.0)
  {
  }

  // ------------------------------------------------------------ the bounded dictionary

  datatype Entry = Entry(key: Key, minutes: real)

  /** The entries of other keys, in order. */
  function Without(items: seq<Entry>, k: Key): (r: seq<Entry>) {
    if items == [] then []
    else if Last(items).key == k then Without(Init(items), k)
    else Without(Init(items), k) + [Last(items)]
  }

  function Find(items: seq<Entry>, k: Key): (r: Option<real>)
    ensures r.None? ==> forall i :: 0 <= i < |items| ==> items[i].key != k
    ensures r.Some? ==> Entry(k, r.value) in items
  {
    if items == [] then None
    else if Last(items).key == k then Some(Last(items).minutes)
    else Find(Init(items), k)
  }

  /** The n newest elements. */
  function Newest<T>(s: seq<T>, n: nat): (r: seq<T>) {
    if |s| <= n then s else s[|s| - n..]
  }

  predicate DistinctKeys(items: seq<Entry>) {
    forall i, j :: 0 <= i < j < |items| ==> items[i].key != items[j].key
  }

  lemma {:induction false} WithoutKeepsOthers(items: seq<Entry>, k: Key, e: Entry)
    ensures e in Without(items, k) <==> e in items && e.key != k
  {
    if items != [] {
      WithoutKeepsOthers(Init(items), k, e);
      assert items == Init(items) + [Last(items)];
    }
  }

  lemma {:induction false} WithoutStaysDistinct(items: seq<Entry>, k: Key)
    requires DistinctKeys(items)
    ensures DistinctKeys(Without(items, k)) && |Without(items, k)| <= |items|
    ensures forall i :: 0 <= i < |Without(items, k)| ==> Without(items, k)[i].key != k
  {
    if items != [] {
      var init, last := Init(items), Last(items);
      WithoutStaysDistinct(init, k);
      forall i | 0 <= i < |Without(init, k)| ensures Without(init, k)[i].key != last.key {
        WithoutKeepsOthers(init, k, Without(init, k)[i]);
        assert Without(init, k)[i] in init;
      }
    }
  }

  class CacheDict {
    var items: seq<Entry>
    const cacheLen: nat

    ghost predicate Valid()
      reads this
    {
      cacheLen > 0 && |items| <= cacheLen && DistinctKeys(items)
    }

    constructor (cacheLen: nat)
      requires cacheLen > 0
      ensures Valid() && items == [] && this.cacheLen == cacheLen
    {
      this.items := [];
      this.cacheLen := cacheLen;
    }

    /** Stores the value as the newest entry, and drops the oldest ones beyond the limit. */
    method SetItem(k: Key, minutes: real)
      requires Valid()
      modifies this
      ensures Valid()
      ensures items == Newest(Without(old(items), k) + [Entry(k, minutes)], cacheLen)
    {
      WithoutStaysDistinct(items, k);
      items := Without(items, k) + [Entry(k, minutes)];
      ghost var all, dropped := items, 0;
      while |items| > cacheLen
        invariant dropped <= |all| && items == all[dropped..]
        invariant dropped > 0 ==> |items| >= cacheLen
      {
        items := items[1..];
        dropped := dropped + 1;
      }
    }

    /** Reads a value and makes its entry the newest. */
    method GetItem(k: Key) returns (r: Option<real>)
      requires Valid()
      modifies this
      ensures Valid()
      ensures r == Find(old(items), k)
      ensures items == if r.None? then old(items) else Without(old(items), k) + [Entry(k, r.value)]
    {
      r := Find(items, k);
      if r.Some? {
        WithoutStaysDistinct(items, k);
        WithoutIsShorter(items, k);
        items := Without(items, k) + [Entry(k, r.value)];
      }
    }
  }

  lemma {:induction false} WithoutIsShorter(items: seq<Entry>, k: Key)
    requires Find(items, k).Some?
    ensures |Without(items, k)| < |items|
  {
    WithoutAtMost(items, k);
    if Last(items).key != k { WithoutIsShorter(Init(items), k); } else { WithoutAtMost(Init(items), k); }
  }

  lemma {:induction false} WithoutAtMost(items: seq<Entry>, k: Key)
    ensures |Without(items, k)| <= |items|
  {
    if items != [] { WithoutAtMost(Init(items), k); }
  }

  // ------------------------------------------------------------ one call, as a function of the cache

  datatype Answer = Answer(items: seq<Entry>, minutes: Option<real>, hit: bool)

  /**
   A call finds its key or computes and stores it; either way its entry is the newest afterwards.
   If computing raises, nothing is stored.
   */
  function Call(cfg: Config, cap: nat, items: seq<Entry>, a: Location, b: Location): (r: Answer) {
    var k := KeyOf(a, b);
    var found := Find(items, k);
    var minutes := if found.Some? then found else Direct(cfg, a, b);
    if minutes.None? then Answer(items, None, false)
    else Answer(Newest(Without(items, k) + [Entry(k, minutes.value)], cap), minutes, found.Some?)
  }

  /** Every remembered time is the one between its places if neither is a home. */
  ghost predicate Agrees(cfg: Config, items: seq<Entry>) {
    forall e :: e in items ==> Some(e.minutes) == HomeFree(cfg, e.key)
  }

  /** From an agreeing cache, a call without a home, or that takes no time, answers as the direct router does, and the cache still agrees. */
  lemma CallAgrees(cfg: Config, cap: nat, items: seq<Entry>, a: Location, b: Location)
    requires Agrees(cfg, items) && (!Homely(a, b) || HomeFree(cfg, KeyOf(a, b)) == Some(0.0))
    ensures Call(cfg, cap, items, a, b).minutes == Direct(cfg, a, b)
    ensures Agrees(cfg, Call(cfg, cap, items, a, b).items)
  {
    var k := KeyOf(a, b);
    SameTimeIff(cfg, Trip(a, b), Trip(Location(a.lon, a.lat, Unstated), Location(b.lon, b.lat, Unstated)));
    var call := Call(cfg, cap, items, a, b);
    if call.minutes.Some? {
      var all := Without(items, k) + [Entry(k, call.minutes.value)];
      forall e | e in Newest(all, cap) ensures Some(e.minutes) == HomeFree(cfg, e.key) {
        if e in Without(items, k) { WithoutKeepsOthers(items, k, e); }
      }
    }
  }

  // ------------------------------------------------------------ the routers

  class MultiLayerCacheTravelTime {
    const cfg: Config
    const cache: CacheDict
    var hit: nat
    var miss: nat

    constructor (speed: real, minMinutes: real, distance: Key -> real, cache: CacheDict)
      ensures cfg == Config(speed, minMinutes, None, distance) && this.cache == cache && hit == 0 && miss == 0
    {
      this.cfg := Config(speed, minMinutes, None, distance);
      this.cache := cache;
      hit, miss := 0, 0;
    }

    /** One call; None when the direct router raises. */
    method GetTravelMinutes2Locations(a: Location, b: Location) returns (minutes: Option<real>)
      requires cache.Valid()
      modifies this, cache
      ensures cache.Valid()
      ensures var call := Call(cfg, cache.cacheLen, old(cache.items), a, b);
        && cache.items == call.items && minutes == call.minutes
        && hit == old(hit) + (if call.hit then 1 else 0)
        && miss == old(miss) + (if call.hit then 0 else 1)
      ensures old(Agrees(cfg, cache.items)) && (!Homely(a, b) || HomeFree(cfg, KeyOf(a, b)) == Some(0.0)) ==>
        minutes == Direct(cfg, a, b) && Agrees(cfg, cache.items)
    {
      if old(Agrees(cfg, cache.items)) && (!Homely(a, b) || HomeFree(cfg, KeyOf(a, b)) == Some(0.0)) {
        CallAgrees(cfg, cache.cacheLen, cache.items, a, b);
      }
      var k := KeyOf(a, b);
      ghost var before := cache.items;
      if Find(cache.items, k).Some? {
        hit := hit + 1;
        minutes := cache.GetItem(k);
      } else {
        miss := miss + 1;
        var direct := Direct(cfg, a, b);
        if direct.None? { return None; }
        cache.SetItem(k, direct.value);
        WithoutStaysDistinct(before, k);
        NewestIsFound(Without(before, k), Entry(k, direct.value), cache.cacheLen);
        minutes := cache.GetItem(k);
      }
    }
  }

  /** The newest entry is found, and reading it changes nothing. */
  lemma NewestIsFound(items: seq<Entry>, e: Entry, cap: nat)
    requires cap > 0 && forall i :: 0 <= i < |items| ==> items[i].key != e.key
    ensures var all := Newest(items + [e], cap);
      Find(all, e.key) == Some(e.minutes) && Without(all, e.key) + [e] == all
  {
    var kept := if |items| < cap then items else items[|items| - (cap - 1)..];
    assert Newest(items + [e], cap) == kept + [e];
    assert Init(kept + [e]) == kept && Last(kept + [e]) == e;
    WithoutNothing(kept, e.key);
  }

  lemma {:induction false} WithoutNothing(items: seq<Entry>, k: Key)
    requires forall i :: 0 <= i < |items| ==> items[i].key != k
    ensures Without(items, k) == items
  {
    if items != [] {
      var init, last := Init(items), Last(items);
      assert items == init + [last] && last == items[|items| - 1];
      assert forall i :: 0 <= i < |init| ==> init[i] == items[i];
      WithoutNothing(init, k);
    }
  }

  // ------------------------------------------------------------ whole runs

  datatype Trip = Trip(a: Location, b: Location)

  datatype Ran = Ran(items: seq<Entry>, answers: seq<Option<real>>, hits: seq<bool>)

  function Run(cfg: Config, cap: nat, items: seq<Entry>, trips: seq<Trip>): (r: Ran)
    ensures |r.answers| == |trips| && |r.hits| == |trips|
  {
    if trips == [] then Ran(items, [], [])
    else
      var before := Run(cfg, cap, items, Init(trips));
      var call := Call(cfg, cap, before.items, Last(trips).a, Last(trips).b);
      Ran(call.items, before.answers + [call.minutes], before.hits + [call.hit])
  }

  // ------------------------------------------------------------ what is still in the cache

  function KeysOf(items: seq<Entry>): (r: seq<Key>)
    ensures |r| == |items| && forall i :: 0 <= i < |items| ==> r[i] == items[i].key
  {
    if items == [] then [] else KeysOf(Init(items)) + [Last(items).key]
  }

  function KeysOfTrips(trips: seq<Trip>): (r: seq<Key>)
    ensures |r| == |trips| && forall i :: 0 <= i < |trips| ==> r[i] == KeyOf(trips[i].a, trips[i].b)
  {
    if trips == [] then [] else KeysOfTrips(Init(trips)) + [KeyOf(Last(trips).a, Last(trips).b)]
  }

  function Drop(keys: seq<Key>, k: Key): (r: seq<Key>) {
    if keys == [] then []
    else if Last(keys) == k then Drop(Init(keys), k)
    else Drop(Init(keys), k) + [Last(keys)]
  }

  /** The keys used, each once, in order of last use. */
  function Recent(history: seq<Key>): (r: seq<Key>) {
    if history == [] then [] else Drop(Recent(Init(history)), Last(history)) + [Last(history)]
  }

  predicate Distinct(keys: seq<Key>) {
    forall i, j :: 0 <= i < j < |keys| ==> keys[i] != keys[j]
  }

  lemma DropSnoc(keys: seq<Key>, x: Key, k: Key)
    ensures Drop(keys + [x], k) == if x == k then Drop(keys, k) else Drop(keys, k) + [x]
  {
    assert Init(keys + [x]) == keys;
  }

  lemma {:induction false} DropConcat(a: seq<Key>, b: seq<Key>, k: Key)
    ensures Drop(a + b, k) == Drop(a, k) + Drop(b, k)
  {
    if b == [] {
      assert a + b == a;
    } else {
      DropConcat(a, Init(b), k);
      assert a + b == (a + Init(b)) + [Last(b)];
      DropSnoc(a + Init(b), Last(b), k);
    }
  }

  lemma {:induction false} DropNothing(keys: seq<Key>, k: Key)
    requires k !in keys
    ensures Drop(keys, k) == keys
  {
    if keys != [] {
      assert keys == Init(keys) + [Last(keys)];
      DropNothing(Init(keys), k);
    }
  }

  lemma {:induction false} DropMembers(keys: seq<Key>, k: Key, x: Key)
    ensures x in Drop(keys, k) <==> x in keys && x != k
  {
    if keys != [] {
      assert keys == Init(keys) + [Last(keys)];
      DropMembers(Init(keys), k, x);
    }
  }

  lemma {:induction false} DropStaysDistinct(keys: seq<Key>, k: Key)
    requires Distinct(keys)
    ensures Distinct(Drop(keys, k)) && |Drop(keys, k)| == |keys| - (if k in keys then 1 else 0)
  {
    if keys != [] {
      var init, last := Init(keys), Last(keys);
      assert keys == init + [last];
      DropStaysDistinct(init, k);
      assert last !in init;
      if last != k {
        DropMembers(init, k, last);
      }
    }
  }

  lemma {:induction false} RecentIsDistinct(history: seq<Key>)
    ensures Distinct(Recent(history))
    ensures forall k :: k in Recent(history) <==> k in history
  {
    if history != [] {
      var init, last := Init(history), Last(history);
      assert history == init + [last];
      RecentIsDistinct(init);
      DropStaysDistinct(Recent(init), last);
      DropMembers(Recent(init), last, last);
      forall k ensures k in Recent(history) <==> k in history {
        DropMembers(Recent(init), last, k);
      }
    }
  }

  lemma {:induction false} KeysWithout(items: seq<Entry>, k: Key)
    ensures KeysOf(Without(items, k)) == Drop(KeysOf(items), k)
  {
    if items != [] {
      KeysWithout(Init(items), k);
      assert Init(KeysOf(items)) == KeysOf(Init(items));
      if Last(items).key != k {
        assert Init(Without(items, k)) == Without(Init(items), k);
      }
    }
  }

  lemma UseNewerKey(older: seq<Key>, newer: seq<Key>, k: Key)
    requires Distinct(newer) && k in newer && k !in older
    ensures Newest(Drop(older + newer, k) + [k], |newer|) == Newest(Drop(newer, k) + [k], |newer|)
  {
    DropNothing(older, k);
    DropConcat(older, newer, k);
    DropStaysDistinct(newer, k);
    assert (older + Drop(newer, k)) + [k] == older + (Drop(newer, k) + [k]);
    NewestOfLong(older, Drop(newer, k) + [k], |newer|);
  }

  lemma UseOtherKey(older: seq<Key>, newer: seq<Key>, k: Key)
    requires k !in newer
    ensures Newest(Drop(older + newer, k) + [k], |newer|) == Newest(Drop(newer, k) + [k], |newer|)
  {
    DropConcat(older, newer, k);
    DropNothing(newer, k);
    assert (Drop(older, k) + newer) + [k] == Drop(older, k) + (newer + [k]);
    NewestOfLong(Drop(older, k), newer + [k], |newer|);
  }

  lemma DistinctParts(older: seq<Key>, newer: seq<Key>, k: Key)
    requires Distinct(older + newer)
    ensures Distinct(newer) && (k in newer ==> k !in older)
  {
    var all := older + newer;
    forall p, q | 0 <= p < q < |newer| ensures newer[p] != newer[q] {
      assert all[|older| + p] != all[|older| + q];
    }
    forall p, q | 0 <= p < |older| && 0 <= q < |newer| ensures older[p] != newer[q] {
      assert all[p] != all[|older| + q];
    }
  }

  /** Using k with only the newest keys at hand leaves the newest of what using it with all keys leaves. */
  lemma NewestAfterUse(keys: seq<Key>, k: Key, cap: nat)
    requires Distinct(keys)
    ensures Newest(Drop(Newest(keys, cap), k) + [k], cap) == Newest(Drop(keys, k) + [k], cap)
  {
    if |keys| > cap {
      var older, newer := keys[..|keys| - cap], keys[|keys| - cap..];
      assert keys == older + newer;
      DistinctParts(older, newer, k);
      if k in newer { UseNewerKey(older, newer, k); } else { UseOtherKey(older, newer, k); }
    }
  }

  lemma NewestOfLong(older: seq<Key>, newer: seq<Key>, n: nat)
    requires |newer| >= n
    ensures Newest(older + newer, n) == Newest(newer, n)
  {
  }

  /** What the last trip of a run is told. */
  function LastCall(cfg: Config, cap: nat, trips: seq<Trip>): Answer
    requires trips != []
  {
    Call(cfg, cap, Run(cfg, cap, [], Init(trips)).items, Last(trips).a, Last(trips).b)
  }

  /** The trips that get an answer; the others raise, and store nothing. */
  function Answered(cfg: Config, cap: nat, trips: seq<Trip>): (r: seq<Trip>) {
    if trips == [] then []
    else if LastCall(cfg, cap, trips).minutes.Some? then Answered(cfg, cap, Init(trips)) + [Last(trips)]
    else Answered(cfg, cap, Init(trips))
  }

  lemma RunOfRaising(cfg: Config, cap: nat, trips: seq<Trip>)
    requires trips != [] && LastCall(cfg, cap, trips).minutes.None?
    ensures Run(cfg, cap, [], trips).items == Run(cfg, cap, [], Init(trips)).items
    ensures LastCall(cfg, cap, trips).minutes == Direct(cfg, Last(trips).a, Last(trips).b)
  {
  }

  /** The cache holds the keys used last, in order of last use, as many as fit. */
  lemma {:induction false} CacheIsMostRecent(cfg: Config, cap: nat, trips: seq<Trip>)
    ensures KeysOf(Run(cfg, cap, [], trips).items) == Newest(Recent(KeysOfTrips(Answered(cfg, cap, trips))), cap)
  {
    if trips != [] {
      CacheIsMostRecent(cfg, cap, Init(trips));
      if LastCall(cfg, cap, trips).minutes.Some? {
        UseIsMostRecent(cfg, cap, Run(cfg, cap, [], Init(trips)).items, Answered(cfg, cap, Init(trips)), Last(trips));
      } else {
        RunOfRaising(cfg, cap, trips);
      }
    }
  }

  lemma UseIsMostRecent(cfg: Config, cap: nat, items: seq<Entry>, answered: seq<Trip>, last: Trip)
    requires KeysOf(items) == Newest(Recent(KeysOfTrips(answered)), cap) && Call(cfg, cap, items, last.a, last.b).minutes.Some?
    ensures KeysOf(Call(cfg, cap, items, last.a, last.b).items) == Newest(Recent(KeysOfTrips(answered + [last])), cap)
  {
    var history, k := KeysOfTrips(answered), KeyOf(last.a, last.b);
    RecentIsDistinct(history);
    NewestAfterUse(Recent(history), k, cap);
    KeysAfterCall(cfg, cap, items, last.a, last.b);
    assert KeysOfTrips(answered + [last]) == history + [k];
    RecentSnoc(history, k);
  }

  lemma KeysOfNewest(items: seq<Entry>, n: nat)
    ensures KeysOf(Newest(items, n)) == Newest(KeysOf(items), n)
  {
  }

  lemma KeysSnoc(items: seq<Entry>, e: Entry)
    ensures KeysOf(items + [e]) == KeysOf(items) + [e.key]
  {
  }

  lemma KeysAfterStore(items: seq<Entry>, e: Entry, cap: nat)
    ensures KeysOf(Newest(Without(items, e.key) + [e], cap)) == Newest(Drop(KeysOf(items), e.key) + [e.key], cap)
  {
    KeysWithout(items, e.key);
    KeysSnoc(Without(items, e.key), e);
    KeysOfNewest(Without(items, e.key) + [e], cap);
  }

  lemma KeysAfterCall(cfg: Config, cap: nat, items: seq<Entry>, a: Location, b: Location)
    requires Call(cfg, cap, items, a, b).minutes.Some?
    ensures KeysOf(Call(cfg, cap, items, a, b).items) == Newest(Drop(KeysOf(items), KeyOf(a, b)) + [KeyOf(a, b)], cap)
  {
    KeysAfterStore(items, Entry(KeyOf(a, b), Call(cfg, cap, items, a, b).minutes.value), cap);
  }

  lemma {:induction false} FindIffKey(items: seq<Entry>, k: Key)
    ensures Find(items, k).Some? <==> k in KeysOf(items)
  {
    if items != [] { FindIffKey(Init(items), k); }
  }

  lemma RecentSnoc(history: seq<Key>, x: Key)
    ensures Recent(history + [x]) == Drop(Recent(history), x) + [x]
  {
    assert Init(history + [x]) == history;
  }

  /** After k was last used, the keys used since stand behind it. */
  lemma {:induction false} RecentSince(before: seq<Key>, k: Key, since: seq<Key>) returns (older: seq<Key>)
    requires k !in since
    ensures Recent(before + [k] + since) == older + [k] + Recent(since)
  {
    if since == [] {
      assert before + [k] + since == before + [k];
      RecentSnoc(before, k);
      older := Drop(Recent(before), k);
    } else {
      var init, x := Init(since), Last(since);
      assert since == init + [x];
      older := RecentSince(before, k, init);
      assert before + [k] + since == (before + [k] + init) + [x];
      RecentSnoc(before + [k] + init, x);
      DropConcat(older + [k], Recent(init), x);
      DropSnoc(older, k, x);
      older := Drop(older, x);
      assert (older + [k] + Drop(Recent(init), x)) + [x] == older + [k] + (Drop(Recent(init), x) + [x]);
    }
  }

  /** The keys of a history. */
  function Used(history: seq<Key>): set<Key> {
    set k | k in history
  }

  lemma RecentSize(history: seq<Key>)
    ensures |Recent(history)| == |Used(history)|
  {
    RecentIsDistinct(history);
    DistinctSize(Recent(history));
    assert Used(Recent(history)) == Used(history);
  }

  lemma {:induction false} DistinctSize(keys: seq<Key>)
    requires Distinct(keys)
    ensures |keys| == |Used(keys)|
  {
    if keys != [] {
      var init, last := Init(keys), Last(keys);
      assert keys == init + [last];
      DistinctSize(init);
      assert Used(keys) == Used(init) + {last} && last !in Used(init);
    }
  }

  /** A call hits exactly when fewer other keys than the cache holds have been answered since its key was. */
  lemma HitIff(cfg: Config, cap: nat, trips: seq<Trip>, before: seq<Key>, since: seq<Key>, a: Location, b: Location)
    requires KeysOfTrips(Answered(cfg, cap, trips)) == before + [KeyOf(a, b)] + since && KeyOf(a, b) !in since
    ensures Call(cfg, cap, Run(cfg, cap, [], trips).items, a, b).hit <==> |Used(since)| < cap
  {
    var k := KeyOf(a, b);
    CacheIsMostRecent(cfg, cap, trips);
    FindIffKey(Run(cfg, cap, [], trips).items, k);
    var older := RecentSince(before, k, since);
    RecentSize(since);
    RecentIsDistinct(KeysOfTrips(Answered(cfg, cap, trips)));
    KeptIff(older, k, Recent(since), cap);
  }

  lemma KeptIff(older: seq<Key>, k: Key, newer: seq<Key>, cap: nat)
    requires Distinct(older + [k] + newer)
    ensures k in Newest(older + [k] + newer, cap) <==> |newer| < cap
  {
    var all := older + [k] + newer;
    assert all[|older|] == k;
    if |newer| < cap && |all| > cap {
      assert Newest(all, cap)[cap - 1 - |newer|] == k;
    }
  }

  /** A key never answered is a miss. */
  lemma FirstUseMisses(cfg: Config, cap: nat, trips: seq<Trip>, a: Location, b: Location)
    requires KeyOf(a, b) !in KeysOfTrips(Answered(cfg, cap, trips))
    ensures !Call(cfg, cap, Run(cfg, cap, [], trips).items, a, b).hit
  {
    CacheIsMostRecent(cfg, cap, trips);
    RecentIsDistinct(KeysOfTrips(Answered(cfg, cap, trips)));
    FindIffKey(Run(cfg, cap, [], trips).items, KeyOf(a, b));
  }

  // ------------------------------------------------------------ when the answers are right

  lemma {:induction false} AnswerOf(cfg: Config, cap: nat, trips: seq<Trip>, j: nat)
    requires j < |trips|
    ensures Run(cfg, cap, [], trips).answers[j] == Call(cfg, cap, Run(cfg, cap, [], trips[..j]).items, trips[j].a, trips[j].b).minutes
    decreases |trips|
  {
    if j < |trips| - 1 {
      AnswerOf(cfg, cap, Init(trips), j);
      assert Init(trips)[..j] == trips[..j];
    } else {
      assert trips[..j] == Init(trips);
    }
  }

  lemma {:induction false} FindWithout(items: seq<Entry>, k: Key, other: Key)
    requires k != other
    ensures Find(Without(items, other), k) == Find(items, k)
  {
    if items != [] {
      FindWithout(Init(items), k, other);
      if Last(items).key != other { FindSnoc(Without(Init(items), other), Last(items), k); }
    }
  }

  lemma FindSnoc(items: seq<Entry>, e: Entry, k: Key)
    ensures Find(items + [e], k) == if e.key == k then Some(e.minutes) else Find(items, k)
  {
    assert Init(items + [e]) == items;
  }

  lemma {:induction false} FindNewest(items: seq<Entry>, n: nat, k: Key)
    ensures Find(Newest(items, n), k).Some? ==> Find(items, k) == Find(Newest(items, n), k)
  {
    var kept := Newest(items, n);
    if items != [] && kept != [] {
      FindNewest(Init(items), n - 1, k);
      assert Last(kept) == Last(items) && Init(kept) == Newest(Init(items), n - 1);
    }
  }

  /** A call leaves other keys their times, if it leaves them at all, and its own key its answer. */
  lemma FindAfterCall(cfg: Config, cap: nat, items: seq<Entry>, a: Location, b: Location, k: Key)
    ensures var call := Call(cfg, cap, items, a, b);
      Find(call.items, k).Some? ==> Find(call.items, k) == if k == KeyOf(a, b) then call.minutes else Find(items, k)
  {
    var call := Call(cfg, cap, items, a, b);
    if call.minutes.Some? {
      var e := Entry(KeyOf(a, b), call.minutes.value);
      FindNewest(Without(items, e.key) + [e], cap, k);
      FindSnoc(Without(items, e.key), e, k);
      if k != e.key { FindWithout(items, k, e.key); }
    }
  }

  /** No trip behind i uses its key. */
  predicate IsLastUse(trips: seq<Trip>, i: nat) {
    i < |trips| && forall h :: i < h < |trips| ==> KeyOf(trips[h].a, trips[h].b) != KeyOf(trips[i].a, trips[i].b)
  }

  lemma LastUseBefore(trips: seq<Trip>, i: nat)
    requires IsLastUse(trips, i) && i < |trips| - 1
    ensures IsLastUse(Init(trips), i) && Init(trips)[i] == trips[i]
    ensures KeyOf(Last(trips).a, Last(trips).b) != KeyOf(trips[i].a, trips[i].b)
  {
    forall h | i < h < |Init(trips)| ensures KeyOf(Init(trips)[h].a, Init(trips)[h].b) != KeyOf(trips[i].a, trips[i].b) {
      assert Init(trips)[h] == trips[h];
    }
  }

  /** As long as a key is in the cache, its time is the answer of its last use. */
  lemma {:induction false} LastAnswerIsKept(cfg: Config, cap: nat, trips: seq<Trip>, i: nat)
    requires IsLastUse(trips, i)
    ensures var r := Run(cfg, cap, [], trips);
      var found := Find(r.items, KeyOf(trips[i].a, trips[i].b));
      found.Some? ==> found == r.answers[i]
    decreases |trips|
  {
    var init, last := Init(trips), Last(trips);
    FindAfterCall(cfg, cap, Run(cfg, cap, [], init).items, last.a, last.b, KeyOf(trips[i].a, trips[i].b));
    if i < |trips| - 1 {
      LastUseBefore(trips, i);
      LastAnswerIsKept(cfg, cap, init, i);
    }
  }

  /** Trip j uses the key of trip i, and no trip in between does. */
  predicate NextUse(trips: seq<Trip>, i: nat, j: nat) {
    && i < j < |trips| && KeyOf(trips[i].a, trips[i].b) == KeyOf(trips[j].a, trips[j].b)
    && forall h :: i < h < j ==> KeyOf(trips[h].a, trips[h].b) != KeyOf(trips[j].a, trips[j].b)
  }

  /** And the key was still in the cache: fewer others than fit have been used in between. */
  predicate StillCached(trips: seq<Trip>, cap: nat, i: nat, j: nat) {
    NextUse(trips, i, j) && |Used(KeysOfTrips(trips[i + 1..j]))| < cap
  }

  /** Every trip of the run gets an answer. */
  predicate AllAnswered(cfg: Config, cap: nat, trips: seq<Trip>) {
    Answered(cfg, cap, trips) == trips
  }

  lemma {:induction false} AnsweredAtMost(cfg: Config, cap: nat, trips: seq<Trip>)
    ensures |Answered(cfg, cap, trips)| <= |trips|
  {
    if trips != [] { AnsweredAtMost(cfg, cap, Init(trips)); }
  }

  lemma AllAnsweredInit(cfg: Config, cap: nat, trips: seq<Trip>)
    requires trips != [] && AllAnswered(cfg, cap, trips)
    ensures AllAnswered(cfg, cap, Init(trips))
    ensures LastCall(cfg, cap, trips).minutes.Some?
  {
    AnsweredAtMost(cfg, cap, Init(trips));
    assert Init(Answered(cfg, cap, trips)) == Answered(cfg, cap, Init(trips));
  }

  lemma {:induction false} AllAnsweredPrefix(cfg: Config, cap: nat, trips: seq<Trip>, j: nat)
    requires j <= |trips| && AllAnswered(cfg, cap, trips)
    ensures AllAnswered(cfg, cap, trips[..j])
    decreases |trips|
  {
    if j < |trips| {
      AllAnsweredInit(cfg, cap, trips);
      AllAnsweredPrefix(cfg, cap, Init(trips), j);
      assert Init(trips)[..j] == trips[..j];
    } else {
      assert trips[..j] == trips;
    }
  }

  /** The trips that raise may be left out: the cache and the answers of the others stay as they are. */
  lemma {:induction false} RaisingTripsLeaveNoTrace(cfg: Config, cap: nat, trips: seq<Trip>)
    ensures Run(cfg, cap, [], Answered(cfg, cap, trips)).items == Run(cfg, cap, [], trips).items
    ensures AllAnswered(cfg, cap, Answered(cfg, cap, trips))
  {
    if trips != [] {
      var init, last := Init(trips), Last(trips);
      RaisingTripsLeaveNoTrace(cfg, cap, init);
      if LastCall(cfg, cap, trips).minutes.Some? {
        AnsweredSnoc(cfg, cap, init, Answered(cfg, cap, init), last);
        assert trips == init + [last];
      } else {
        RunOfRaising(cfg, cap, trips);
      }
    }
  }

  /** From equal caches the next trip does the same. */
  lemma AnsweredSnoc(cfg: Config, cap: nat, trips: seq<Trip>, answered: seq<Trip>, last: Trip)
    requires Run(cfg, cap, [], answered).items == Run(cfg, cap, [], trips).items && AllAnswered(cfg, cap, answered)
    ensures Run(cfg, cap, [], answered + [last]).items == Run(cfg, cap, [], trips + [last]).items
    ensures Call(cfg, cap, Run(cfg, cap, [], trips).items, last.a, last.b).minutes.Some? ==> AllAnswered(cfg, cap, answered + [last])
  {
    var a, t := answered + [last], trips + [last];
    assert Init(a) == answered && Last(a) == last;
    assert Init(t) == trips && Last(t) == last;
  }

  /** With a speed other than zero every trip gets an answer. */
  lemma {:induction false} SpeedAnswers(cfg: Config, cap: nat, trips: seq<Trip>)
    requires cfg.speed != 0.0
    ensures AllAnswered(cfg, cap, trips)
  {
    if trips != [] {
      SpeedAnswers(cfg, cap, Init(trips));
      assert trips == Init(trips) + [Last(trips)];
    }
  }

  lemma HitsIffStillCached(cfg: Config, cap: nat, trips: seq<Trip>, i: nat, j: nat)
    requires AllAnswered(cfg, cap, trips) && NextUse(trips, i, j)
    ensures Call(cfg, cap, Run(cfg, cap, [], trips[..j]).items, trips[j].a, trips[j].b).hit <==> StillCached(trips, cap, i, j)
  {
    var keys := KeysOfTrips(trips[..j]);
    assert keys == keys[..i] + [keys[i]] + keys[i + 1..];
    assert keys[i + 1..] == KeysOfTrips(trips[i + 1..j]);
    AllAnsweredPrefix(cfg, cap, trips, j);
    HitIff(cfg, cap, trips[..j], keys[..i], keys[i + 1..], trips[j].a, trips[j].b);
  }

  lemma AnswersOfPrefix(cfg: Config, cap: nat, trips: seq<Trip>, i: nat, j: nat)
    requires i < j <= |trips|
    ensures Run(cfg, cap, [], trips[..j]).answers[i] == Run(cfg, cap, [], trips).answers[i]
  {
    AnswerOf(cfg, cap, trips, i);
    AnswerOf(cfg, cap, trips[..j], i);
    assert trips[..j][..i] == trips[..i];
  }

  lemma CachedAnswer(cfg: Config, cap: nat, trips: seq<Trip>, i: nat, j: nat)
    requires AllAnswered(cfg, cap, trips) && NextUse(trips, i, j)
    ensures Run(cfg, cap, [], trips).answers[j] ==
      if StillCached(trips, cap, i, j) then Run(cfg, cap, [], trips).answers[i] else Direct(cfg, trips[j].a, trips[j].b)
  {
    AnswerOf(cfg, cap, trips, j);
    HitsIffStillCached(cfg, cap, trips, i, j);
    AnswersOfPrefix(cfg, cap, trips, i, j);
    assert IsLastUse(trips[..j], i);
    LastAnswerIsKept(cfg, cap, trips[..j], i);
  }

  lemma LastUse(trips: seq<Trip>, j: nat) returns (i: int)
    requires j < |trips|
    ensures i == -1 ==> forall h :: 0 <= h < j ==> KeyOf(trips[h].a, trips[h].b) != KeyOf(trips[j].a, trips[j].b)
    ensures i != -1 ==> 0 <= i && NextUse(trips, i, j)
  {
    i := j - 1;
    while i >= 0 && KeyOf(trips[i].a, trips[i].b) != KeyOf(trips[j].a, trips[j].b)
      invariant -1 <= i < j
      invariant forall h :: i < h < j ==> KeyOf(trips[h].a, trips[h].b) != KeyOf(trips[j].a, trips[j].b)
    {
      i := i - 1;
    }
  }

  predicate AnswerIsDirect(cfg: Config, cap: nat, trips: seq<Trip>, j: nat)
    requires j < |trips|
  {
    Run(cfg, cap, [], trips).answers[j] == Direct(cfg, trips[j].a, trips[j].b)
  }

  /** The two trips are alike to the direct router: both or neither with a home, or between places no time apart. */
  predicate Alike(cfg: Config, s: Trip, t: Trip) {
    Homely(s.a, s.b) == Homely(t.a, t.b) || HomeFree(cfg, KeyOf(s.a, s.b)) == Some(0.0)
  }

  ghost predicate CachedAreAlike(cfg: Config, cap: nat, trips: seq<Trip>) {
    forall i: nat, j: nat :: StillCached(trips, cap, i, j) ==> Alike(cfg, trips[i], trips[j])
  }

  lemma FirstUseIsDirect(cfg: Config, cap: nat, trips: seq<Trip>, j: nat)
    requires AllAnswered(cfg, cap, trips) && j < |trips|
    requires forall h :: 0 <= h < j ==> KeyOf(trips[h].a, trips[h].b) != KeyOf(trips[j].a, trips[j].b)
    ensures AnswerIsDirect(cfg, cap, trips, j)
  {
    AnswerOf(cfg, cap, trips, j);
    AllAnsweredPrefix(cfg, cap, trips, j);
    assert KeyOf(trips[j].a, trips[j].b) !in KeysOfTrips(trips[..j]);
    FirstUseMisses(cfg, cap, trips[..j], trips[j].a, trips[j].b);
  }

  lemma {:induction false} AlikeMakesDirect(cfg: Config, cap: nat, trips: seq<Trip>, j: nat)
    requires AllAnswered(cfg, cap, trips) && j < |trips|
    requires CachedAreAlike(cfg, cap, trips)
    ensures AnswerIsDirect(cfg, cap, trips, j)
    decreases j
  {
    var i := LastUse(trips, j);
    if i == -1 {
      FirstUseIsDirect(cfg, cap, trips, j);
    } else {
      AlikeMakesDirect(cfg, cap, trips, i);
      CachedAnswer(cfg, cap, trips, i, j);
      if StillCached(trips, cap, i, j) { SameTimeIff(cfg, trips[i], trips[j]); }
    }
  }

  ghost predicate AllDirect(cfg: Config, cap: nat, trips: seq<Trip>) {
    forall j: nat :: j < |trips| ==> AnswerIsDirect(cfg, cap, trips, j)
  }

  lemma AnsweredAreDirectIff(cfg: Config, cap: nat, trips: seq<Trip>)
    requires AllAnswered(cfg, cap, trips)
    ensures AllDirect(cfg, cap, trips) <==> CachedAreAlike(cfg, cap, trips)
  {
    if CachedAreAlike(cfg, cap, trips) {
      forall j: nat | j < |trips| ensures AnswerIsDirect(cfg, cap, trips, j) {
        AlikeMakesDirect(cfg, cap, trips, j);
      }
    }
    if AllDirect(cfg, cap, trips) {
      forall i: nat, j: nat | StillCached(trips, cap, i, j) ensures Alike(cfg, trips[i], trips[j]) {
        CachedAnswer(cfg, cap, trips, i, j);
        assert AnswerIsDirect(cfg, cap, trips, i) && AnswerIsDirect(cfg, cap, trips, j);
        SameTimeIff(cfg, trips[i], trips[j]);
      }
    }
  }

  /** All answers are direct exactly when the earlier ones and the last one are. */
  lemma AllDirectSnoc(cfg: Config, cap: nat, trips: seq<Trip>, last: Trip)
    ensures AllDirect(cfg, cap, trips + [last]) <==>
      AllDirect(cfg, cap, trips) && Call(cfg, cap, Run(cfg, cap, [], trips).items, last.a, last.b).minutes == Direct(cfg, last.a, last.b)
  {
    var all := trips + [last];
    assert Init(all) == trips && Last(all) == last;
    forall j: nat | j < |trips| ensures AnswerIsDirect(cfg, cap, all, j) <==> AnswerIsDirect(cfg, cap, trips, j) {
      assert all[j] == trips[j];
    }
    if AllDirect(cfg, cap, all) {
      assert AnswerIsDirect(cfg, cap, all, |trips|);
      forall j: nat | j < |trips| ensures AnswerIsDirect(cfg, cap, trips, j) { assert AnswerIsDirect(cfg, cap, all, j); }
    }
  }

  /** A trip that raises would raise at the direct router too. */
  lemma {:induction false} RaisingTripsAreDirect(cfg: Config, cap: nat, trips: seq<Trip>)
    ensures AllDirect(cfg, cap, trips) <==> AllDirect(cfg, cap, Answered(cfg, cap, trips))
  {
    if trips != [] {
      var init, last := Init(trips), Last(trips);
      RaisingTripsAreDirect(cfg, cap, init);
      assert trips == init + [last];
      AllDirectSnoc(cfg, cap, init, last);
      if LastCall(cfg, cap, trips).minutes.Some? {
        RaisingTripsLeaveNoTrace(cfg, cap, init);
        AllDirectSnoc(cfg, cap, Answered(cfg, cap, init), last);
      } else {
        RunOfRaising(cfg, cap, trips);
      }
    }
  }

  /**
   The key leaves out the kind of location. So over a run of any capacity every answer is the
   direct router's, exceptions included, if and only if, among the trips that get an answer, each
   that finds its key still cached is like the one that used the key before it.
   */
  lemma AnswersAreDirectIff(cfg: Config, cap: nat, trips: seq<Trip>)
    ensures AllDirect(cfg, cap, trips) <==> CachedAreAlike(cfg, cap, Answered(cfg, cap, trips))
  {
    RaisingTripsAreDirect(cfg, cap, trips);
    RaisingTripsLeaveNoTrace(cfg, cap, trips);
    AnsweredAreDirectIff(cfg, cap, Answered(cfg, cap, trips));
  }

  /** Trips between the same places are all alike. */
  ghost predicate Consistent(cfg: Config, trips: seq<Trip>) {
    forall i: nat, j: nat :: i < |trips| && j < |trips| && KeyOf(trips[i].a, trips[i].b) == KeyOf(trips[j].a, trips[j].b) ==>
      Alike(cfg, trips[i], trips[j])
  }

  /** When all keys fit, the condition is that all answered trips of a key are alike. It suffices for any capacity. */
  lemma AnswersAreDirectWhenAllFit(cfg: Config, cap: nat, trips: seq<Trip>)
    ensures var answered := Answered(cfg, cap, trips);
      && (Consistent(cfg, answered) ==> AllDirect(cfg, cap, trips))
      && (|Used(KeysOfTrips(answered))| <= cap && AllDirect(cfg, cap, trips) ==> Consistent(cfg, answered))
  {
    AnswersAreDirectIff(cfg, cap, trips);
    var answered := Answered(cfg, cap, trips);
    if |Used(KeysOfTrips(answered))| <= cap && AllDirect(cfg, cap, trips) {
      AlikeEverywhere(cfg, cap, answered);
    }
  }

  lemma AlikeEverywhere(cfg: Config, cap: nat, trips: seq<Trip>)
    requires |Used(KeysOfTrips(trips))| <= cap && CachedAreAlike(cfg, cap, trips)
    ensures Consistent(cfg, trips)
  {
    forall i: nat, j: nat | i < |trips| && j < |trips| && KeyOf(trips[i].a, trips[i].b) == KeyOf(trips[j].a, trips[j].b)
      ensures Alike(cfg, trips[i], trips[j])
    {
      AlikeThroughout(cfg, cap, trips, if i < j then i else j, if i < j then j else i);
    }
  }

  lemma {:induction false} AlikeThroughout(cfg: Config, cap: nat, trips: seq<Trip>, i: nat, j: nat)
    requires |Used(KeysOfTrips(trips))| <= cap && i <= j < |trips|
    requires KeyOf(trips[i].a, trips[i].b) == KeyOf(trips[j].a, trips[j].b)
    requires CachedAreAlike(cfg, cap, trips)
    ensures Alike(cfg, trips[i], trips[j])
    decreases j
  {
    if i < j {
      var h := LastUse(trips, j);
      AlikeThroughout(cfg, cap, trips, i, h);
      FewerInBetween(trips, h, j);
      assert StillCached(trips, cap, h, j);
    }
  }

  lemma FewerInBetween(trips: seq<Trip>, i: nat, j: nat)
    requires NextUse(trips, i, j)
    ensures |Used(KeysOfTrips(trips[i + 1..j]))| < |Used(KeysOfTrips(trips))|
  {
    var all, some := KeysOfTrips(trips), KeysOfTrips(trips[i + 1..j]);
    var k := KeyOf(trips[j].a, trips[j].b);
    assert k == all[j] && k !in some;
    forall x | x in some ensures x in all {
      var h :| 0 <= h < |some| && some[h] == x;
      assert all[i + 1 + h] == x;
    }
    assert Used(some) <= Used(all) - {k};
    SubsetSize(Used(some), Used(all) - {k});
  }

  lemma {:induction false} SubsetSize(a: set<Key>, b: set<Key>)
    requires a <= b
    ensures |a| <= |b|
  {
    if a != {} {
      var x :| x in a;
      SubsetSize(a - {x}, b - {x});
    }
  }
}
