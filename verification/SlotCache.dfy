/**
 Working-time slots live in Redis; every instance keeps an internal copy. A writer changes
 Redis in one transaction, then posts a delete message and an update message naming the codes,
 then brings its own copy up to date. The other instances act on the messages by looking at
 Redis again. All of these are separate steps that instances interleave.
 */
module SlotCache {
  import opened Common

  type Slot = string  // the JSON text stored under a code
  type Slots = map<Code, Slot>

  // ------------------------------------------------------------ one instance, imperatively

  /** The copy after looking the codes up in Redis: found ones are stored, missing ones removed. */
  function Refreshed(cache: Slots, redis: Slots, codes: set<Code>): Slots {
    (cache - codes) + (map c | c in codes && c in redis :: redis[c])
  }

  /** The copy after removing the codes; one that Redis still has is left alone. */
  function Removed(cache: Slots, redis: Slots, codes: set<Code>): Slots {
    cache - (codes - redis.Keys)
  }

  class RedisStore {
    var slots: Slots

    constructor (slots: Slots)
      ensures this.slots == slots
    {
      this.slots := slots;
    }
  }

  class SlotServer {
    const r: RedisStore
    var timeSlotDict: Slots

    constructor (r: RedisStore)
      ensures this.r == r && timeSlotDict == map[]
    {
      this.r := r;
      timeSlotDict := map[];
    }

    method RemoveFromCache(code: Code)
      modifies this
      ensures timeSlotDict == Removed(old(timeSlotDict), r.slots, {code})
      ensures forall c :: At(timeSlotDict, c) == if c == code && c !in r.slots then None else At(old(timeSlotDict), c)
    {
      if code in r.slots { return; }
      if code in timeSlotDict {
        timeSlotDict := timeSlotDict - {code};
      }
    }

    method GetSlot(code: Code) returns (slot: Option<Slot>)
      modifies this
      ensures timeSlotDict == Refreshed(old(timeSlotDict), r.slots, {code})
      ensures forall c :: At(timeSlotDict, c) == if c == code then At(r.slots, c) else At(old(timeSlotDict), c)
      ensures slot == At(r.slots, code)
    {
      if code !in r.slots {
        RemoveFromCache(code);
        return None;
      }
      timeSlotDict := timeSlotDict[code := r.slots[code]];
      slot := Some(r.slots[code]);
    }

    method SetSlots(codes: seq<Code>)
      modifies this
      ensures timeSlotDict == Refreshed(old(timeSlotDict), r.slots, Names(codes))
      ensures forall c :: At(timeSlotDict, c) == if c in codes then At(r.slots, c) else At(old(timeSlotDict), c)
    {
      for i := 0 to |codes|
        invariant timeSlotDict == Refreshed(old(timeSlotDict), r.slots, Names(codes[..i]))
      {
        var _ := GetSlot(codes[i]);
        NamesSnoc(codes, i);
        RefreshedTwice(old(timeSlotDict), r.slots, Names(codes[..i]), codes[i]);
      }
      assert codes[..|codes|] == codes;
    }

    method DeleteSlots(codes: seq<Code>)
      modifies this
      ensures timeSlotDict == Removed(old(timeSlotDict), r.slots, Names(codes))
      ensures forall c :: At(timeSlotDict, c) == if c in codes && c !in r.slots then None else At(old(timeSlotDict), c)
    {
      for i := 0 to |codes|
        invariant timeSlotDict == Removed(old(timeSlotDict), r.slots, Names(codes[..i]))
      {
        RemoveFromCache(codes[i]);
        NamesSnoc(codes, i);
      }
      assert codes[..|codes|] == codes;
    }

    /**
     The writer's side: one Redis transaction, the two messages in the order they are posted,
     and the own copy. `added` lists the keys of `sets`.
     */
    method DeleteAndAddBack(deletes: seq<Code>, added: seq<Code>, sets: Slots) returns (posted: seq<(Kind, set<Code>)>)
      requires Names(added) == sets.Keys
      modifies this, r
      ensures r.slots == Changed(old(r.slots), Change(Names(deletes), sets))
      ensures timeSlotDict == Changed(Removed(old(timeSlotDict), old(r.slots), Names(deletes)), Change(Names(deletes), sets))
      ensures forall c :: At(r.slots, c) == if c in sets then Some(sets[c]) else if c in deletes then None else At(old(r.slots), c)
      ensures forall c :: At(timeSlotDict, c) == if c in sets then Some(sets[c]) else if c in deletes then None else At(old(timeSlotDict), c)
      ensures posted == (if deletes == [] then [] else [(Deleted, Names(deletes))]) +
                        (if added == [] then [] else [(Updated, sets.Keys)])
    {
      DeleteSlots(deletes);
      r.slots := Changed(r.slots, Change(Names(deletes), sets));
      posted := [];
      if |deletes| >= 1 { posted := posted + [(Deleted, Names(deletes))]; }
      if |added| >= 1 { posted := posted + [(Updated, Names(added))]; }
      UpdateOwnCopy(deletes, added, sets);
    }

    method UpdateOwnCopy(deletes: seq<Code>, added: seq<Code>, sets: Slots)
      requires Names(added) == sets.Keys
      modifies this
      ensures timeSlotDict == Changed(old(timeSlotDict), Change(Names(deletes), sets))
      ensures forall c :: At(timeSlotDict, c) == if c in sets then Some(sets[c]) else if c in deletes then None else At(old(timeSlotDict), c)
    {
      for i := 0 to |deletes|
        invariant timeSlotDict == old(timeSlotDict) - Names(deletes[..i])
      {
        if deletes[i] in timeSlotDict {
          timeSlotDict := timeSlotDict - {deletes[i]};
        }
        NamesSnoc(deletes, i);
      }
      assert deletes[..|deletes|] == deletes;
      ghost var kept := timeSlotDict;
      for i := 0 to |added|
        invariant timeSlotDict == kept + Part(sets, Names(added[..i]))
      {
        assert added[i] in Names(added);
        NamesSnoc(added, i);
        PartGrows(kept, sets, Names(added[..i]), added[i]);
        timeSlotDict := timeSlotDict[added[i] := sets[added[i]]];
      }
      assert added[..|added|] == added;
      assert Part(sets, sets.Keys) == sets;
    }
  }

  function Part(m: Slots, codes: set<Code>): Slots {
    map c | c in codes && c in m :: m[c]
  }

  lemma PartGrows(kept: Slots, m: Slots, codes: set<Code>, code: Code)
    requires code in m
    ensures (kept + Part(m, codes))[code := m[code]] == kept + Part(m, codes + {code})
  {
  }

  lemma RefreshedTwice(cache: Slots, redis: Slots, codes: set<Code>, code: Code)
    ensures Refreshed(Refreshed(cache, redis, codes), redis, {code}) == Refreshed(cache, redis, codes + {code})
  {
  }

  function Names(codes: seq<Code>): set<Code> {
    set c | c in codes
  }

  lemma NamesSnoc(codes: seq<Code>, i: nat)
    requires i < |codes|
    ensures Names(codes[..i + 1]) == Names(codes[..i]) + {codes[i]}
  {
    assert codes[..i + 1] == codes[..i] + [codes[i]];
  }

  function At(m: Slots, c: Code): Option<Slot> {
    if c in m then Some(m[c]) else None
  }

  // ------------------------------------------------------------ all instances

  datatype Kind = Deleted | Updated
  datatype Notice = Notice(source: nat, kind: Kind, codes: set<Code>)

  datatype Change = Change(deletes: set<Code>, sets: Slots)

  /** How far an instance is with a change of its own. */
  datatype Writing = Quiet | Written(change: Change) | DeletesPosted(change: Change) | AllPosted(change: Change)

  datatype Instance = Instance(cache: Slots, read: nat, writing: Writing)

  datatype State = State(redis: Slots, log: seq<Notice>, instances: seq<Instance>)

  datatype Action =
    | Write(i: nat, change: Change)
    | PostDeletes(i: nat)
    | PostUpdates(i: nat)
    | UpdateOwn(i: nat)
    | Consume(i: nat)
    | LookUp(i: nat, code: Code)

  predicate Enabled(s: State, a: Action) {
    && a.i < |s.instances|
    && var me := s.instances[a.i];
       match a
       case Write(_, _) => me.writing.Quiet?
       case PostDeletes(_) => me.writing.Written?
       case PostUpdates(_) => me.writing.DeletesPosted?
       case UpdateOwn(_) => me.writing.AllPosted?
       case Consume(_) => me.writing.Quiet? && me.read < |s.log|
       case LookUp(_, _) => me.writing.Quiet?
  }

  /** A map after the deletes and then the sets of a change. */
  function Changed(m: Slots, change: Change): Slots {
    (m - change.deletes) + change.sets
  }

  function Post(s: State, n: Notice): State {
    if n.codes == {} then s else s.(log := s.log + [n])
  }

  function Become(s: State, i: nat, me: Instance): State
    requires i < |s.instances|
  {
    s.(instances := s.instances[i := me])
  }

  function Read(me: Instance, i: nat, redis: Slots, n: Notice): Instance {
    me.(read := me.read + 1,
        cache := if n.source == i then me.cache
                 else if n.kind.Updated? then Refreshed(me.cache, redis, n.codes)
                 else Removed(me.cache, redis, n.codes))
  }

  function Step(s: State, a: Action): State
    requires Enabled(s, a)
  {
    var i, me := a.i, s.instances[a.i];
    match a
    case Write(_, change) =>
      // Before the transaction runs, deletes that Redis already lacks leave the own copy too.
      Become(s, i, me.(cache := Removed(me.cache, s.redis, change.deletes), writing := Written(change))).(redis := Changed(s.redis, change))
    case PostDeletes(_) =>
      Post(Become(s, i, me.(writing := DeletesPosted(me.writing.change))), Notice(i, Deleted, me.writing.change.deletes))
    case PostUpdates(_) =>
      Post(Become(s, i, me.(writing := AllPosted(me.writing.change))), Notice(i, Updated, me.writing.change.sets.Keys))
    case UpdateOwn(_) => Become(s, i, me.(cache := Changed(me.cache, me.writing.change), writing := Quiet))
    case Consume(_) => Become(s, i, Read(me, i, s.redis, s.log[me.read]))
    case LookUp(_, code) => Become(s, i, me.(cache := Refreshed(me.cache, s.redis, {code})))
  }

  function Exec(s: State, actions: seq<Action>): Option<State> {
    if actions == [] then Some(s)
    else
      var n := |actions| - 1;
      match Exec(s, actions[..n])
      case None => None
      case Some(mid) => if Enabled(mid, actions[n]) then Some(Step(mid, actions[n])) else None
  }

  /** Every instance has just loaded the slots and starts somewhere in the log. */
  predicate Initial(s: State) {
    forall i :: 0 <= i < |s.instances| ==>
      s.instances[i].cache == s.redis && s.instances[i].writing.Quiet? && s.instances[i].read <= |s.log|
  }

  // ------------------------------------------------------------ what a step does

  /**
   A notice of somebody else makes the copy say of every code it names what Redis says, save that
   a delete notice leaves a code alone that Redis has; an own notice changes nothing.
   */
  lemma ConsumeDoes(s: State, i: nat, c: Code)
    requires Enabled(s, Consume(i))
    ensures var n, me, next := s.log[s.instances[i].read], s.instances[i], Step(s, Consume(i)).instances[i];
      && next.read == me.read + 1
      && At(next.cache, c) == (
           if n.source != i && c in n.codes && (n.kind.Updated? || c !in s.redis) then At(s.redis, c) else At(me.cache, c))
  {
  }

  /** A writer posts the deleted codes and then the set ones, each under its own kind and only if there are any. */
  lemma PostsDo(s: State, i: nat)
    requires i < |s.instances|
    ensures Enabled(s, PostDeletes(i)) ==>
      var codes := s.instances[i].writing.change.deletes;
      Step(s, PostDeletes(i)).log == s.log + (if codes == {} then [] else [Notice(i, Deleted, codes)])
    ensures Enabled(s, PostUpdates(i)) ==>
      var codes := s.instances[i].writing.change.sets.Keys;
      Step(s, PostUpdates(i)).log == s.log + (if codes == {} then [] else [Notice(i, Updated, codes)])
  {
  }

  /** Nobody's copy changes but that of the instance that acts, and the log only by posting. */
  lemma OtherCopiesStay(s: State, a: Action, i: nat)
    requires Enabled(s, a) && i < |s.instances| && i != a.i
    ensures Step(s, a).instances[i] == s.instances[i]
    ensures !a.PostDeletes? && !a.PostUpdates? ==> Step(s, a).log == s.log
  {
  }

  // ------------------------------------------------------------ what Redis holds

  /** Somebody changes code c in Redis. */
  predicate Changes(a: Action, c: Code) {
    a.Write? && (c in a.change.sets || c in a.change.deletes)
  }

  /** Action i is the last one to change c. */
  predicate LastToChange(actions: seq<Action>, i: nat, c: Code) {
    i < |actions| && Changes(actions[i], c) && forall j :: i < j < |actions| ==> !Changes(actions[j], c)
  }

  lemma StepOnRedis(s: State, a: Action, c: Code)
    requires Enabled(s, a)
    ensures At(Step(s, a).redis, c) ==
      if !Changes(a, c) then At(s.redis, c) else if c in a.change.sets then Some(a.change.sets[c]) else None
  {
  }

  /** Where the first m actions lead, Redis has what it has after all of them, if the others do not change c. */
  lemma {:induction false} UnchangedSince(s0: State, actions: seq<Action>, m: nat, c: Code)
    requires m <= |actions| && Exec(s0, actions).Some?
    requires forall j :: m <= j < |actions| ==> !Changes(actions[j], c)
    ensures Exec(s0, actions[..m]).Some? && At(Exec(s0, actions).value.redis, c) == At(Exec(s0, actions[..m]).value.redis, c)
    decreases |actions|
  {
    if m < |actions| {
      var n := |actions| - 1;
      UnchangedSince(s0, actions[..n], m, c);
      StepOnRedis(Exec(s0, actions[..n]).value, actions[n], c);
      assert actions[..n][..m] == actions[..m];
    } else {
      assert actions[..m] == actions;
    }
  }

  /**
   After any run Redis holds under a code what the last change that names the code sets, and
   nothing if that change only deletes it.
   */
  lemma RedisHoldsTheLastWrite(s0: State, actions: seq<Action>, i: nat, c: Code)
    requires Exec(s0, actions).Some? && LastToChange(actions, i, c)
    ensures At(Exec(s0, actions).value.redis, c) == if c in actions[i].change.sets then Some(actions[i].change.sets[c]) else None
  {
    UnchangedSince(s0, actions, i + 1, c);
    var first := actions[..i + 1];
    assert first[..i] == actions[..i] && first[i] == actions[i];
    StepOnRedis(Exec(s0, actions[..i]).value, actions[i], c);
  }

  /** And what it held before under a code that no change names. */
  lemma RedisKeepsTheRest(s0: State, actions: seq<Action>, c: Code)
    requires Exec(s0, actions).Some? && forall a :: a in actions ==> !Changes(a, c)
    ensures At(Exec(s0, actions).value.redis, c) == At(s0.redis, c)
  {
    UnchangedSince(s0, actions, 0, c);
    assert actions[..0] == [];
  }

  // ------------------------------------------------------------ agreement

  /** Entry n of the log will tell instance i about c. */
  predicate Says(s: State, i: nat, kind: Kind, c: Code, n: nat)
    requires i < |s.instances|
  {
    s.instances[i].read <= n < |s.log| && s.log[n].source != i && s.log[n].kind == kind && c in s.log[n].codes
  }

  /** Instance j has changed c in Redis and not posted that yet. */
  predicate WillSay(s: State, kind: Kind, c: Code, j: nat) {
    && j < |s.instances|
    && match s.instances[j].writing
       case Written(change) => if kind.Deleted? then c in change.deletes else c in change.sets
       case DeletesPosted(change) => kind.Updated? && c in change.sets
       case _ => false
  }

  /** Instance i will still be told, by another instance, that c was deleted or updated. */
  ghost predicate Awaits(s: State, i: nat, kind: Kind, c: Code)
    requires i < |s.instances|
  {
    (exists n :: Says(s, i, kind, c, n)) || (exists j :: j != i && WillSay(s, kind, c, j))
  }

  /** The own copy once the change under way has reached it. */
  function Coming(me: Instance): Slots {
    if me.writing.Quiet? then me.cache else Changed(me.cache, me.writing.change)
  }

  /** What the copy of instance i says about c is right, or a message that will correct it is on its way. */
  ghost predicate Settled(s: State, i: nat, c: Code)
    requires i < |s.instances|
  {
    && s.instances[i].read <= |s.log|
    && (|| At(Coming(s.instances[i]), c) == At(s.redis, c)
        || Awaits(s, i, Updated, c)
        || (c !in s.redis && Awaits(s, i, Deleted, c)))
  }

  lemma StillAwaits(s: State, t: State, i: nat, kind: Kind, c: Code)
    requires i < |s.instances| == |t.instances| && Awaits(s, i, kind, c)
    requires forall n :: Says(s, i, kind, c, n) ==> Says(t, i, kind, c, n)
    requires forall j :: j != i && WillSay(s, kind, c, j) ==> WillSay(t, kind, c, j) || exists n :: Says(t, i, kind, c, n)
    ensures Awaits(t, i, kind, c)
  {
    if exists n :: Says(s, i, kind, c, n) {
      var n :| Says(s, i, kind, c, n);
      assert Says(t, i, kind, c, n);
    } else {
      var j :| j != i && WillSay(s, kind, c, j);
      assert WillSay(t, kind, c, j) || exists n :: Says(t, i, kind, c, n);
    }
  }

  lemma WriteSettles(s: State, a: Action, i: nat, c: Code)
    requires Enabled(s, a) && a.Write? && i < |s.instances| && Settled(s, i, c)
    ensures Settled(Step(s, a), i, c)
  {
    var t := Step(s, a);
    if c in a.change.sets || c in a.change.deletes {
      if a.i != i {
        assert WillSay(t, if c in a.change.sets then Updated else Deleted, c, a.i);
      }
    } else {
      forall kind | Awaits(s, i, kind, c)
        ensures Awaits(t, i, kind, c)
      {
        StillAwaits(s, t, i, kind, c);
      }
    }
  }

  lemma PostSettles(s: State, a: Action, i: nat, c: Code)
    requires Enabled(s, a) && (a.PostDeletes? || a.PostUpdates?) && i < |s.instances| && Settled(s, i, c)
    ensures Settled(Step(s, a), i, c)
  {
    var t := Step(s, a);
    forall kind | Awaits(s, i, kind, c)
      ensures Awaits(t, i, kind, c)
    {
      forall j | j != i && WillSay(s, kind, c, j)
        ensures WillSay(t, kind, c, j) || exists n :: Says(t, i, kind, c, n)
      {
        if j == a.i && !WillSay(t, kind, c, j) {
          assert Says(t, i, kind, c, |s.log|);
        }
      }
      StillAwaits(s, t, i, kind, c);
    }
  }

  lemma OwnSettles(s: State, a: Action, i: nat, c: Code)
    requires Enabled(s, a) && (a.UpdateOwn? || a.LookUp?) && i < |s.instances| && Settled(s, i, c)
    ensures Settled(Step(s, a), i, c)
  {
    var t := Step(s, a);
    forall kind | Awaits(s, i, kind, c)
      ensures Awaits(t, i, kind, c)
    {
      StillAwaits(s, t, i, kind, c);
    }
  }

  lemma ConsumeSettles(s: State, a: Action, i: nat, c: Code)
    requires Enabled(s, a) && a.Consume? && i < |s.instances| && Settled(s, i, c)
    ensures Settled(Step(s, a), i, c)
  {
    var t := Step(s, a);
    var n := s.log[s.instances[a.i].read];
    if a.i != i || n.source == i || c !in n.codes || (n.kind.Deleted? && c in s.redis) {
      forall kind | Awaits(s, i, kind, c) && (kind.Updated? || c !in s.redis)
        ensures Awaits(t, i, kind, c)
      {
        StillAwaits(s, t, i, kind, c);
      }
    }
  }

  lemma StepSettles(s: State, a: Action, i: nat, c: Code)
    requires Enabled(s, a) && i < |s.instances| && Settled(s, i, c)
    ensures Settled(Step(s, a), i, c)
  {
    match a
    case Write(_, _) => WriteSettles(s, a, i, c);
    case PostDeletes(_) => PostSettles(s, a, i, c);
    case PostUpdates(_) => PostSettles(s, a, i, c);
    case UpdateOwn(_) => OwnSettles(s, a, i, c);
    case LookUp(_, _) => OwnSettles(s, a, i, c);
    case Consume(_) => ConsumeSettles(s, a, i, c);
  }

  lemma {:induction false} RunSettles(s0: State, actions: seq<Action>, i: nat, c: Code)
    requires Initial(s0) && Exec(s0, actions).Some? && i < |s0.instances|
    ensures |Exec(s0, actions).value.instances| == |s0.instances|
    ensures Settled(Exec(s0, actions).value, i, c)
  {
    if actions != [] {
      var n := |actions| - 1;
      RunSettles(s0, actions[..n], i, c);
      StepSettles(Exec(s0, actions[..n]).value, actions[n], i, c);
    }
  }

  /**
   Any number of instances, all of them writing and reading in any interleaving: an instance
   that has read the whole log, while nobody has a change under way, holds exactly the slots
   that Redis holds.
   */
  lemma DrainedCacheAgrees(s0: State, actions: seq<Action>, i: nat)
    requires Initial(s0) && Exec(s0, actions).Some? && i < |s0.instances|
    requires var s := Exec(s0, actions).value;
             && |s.instances| == |s0.instances|
             && s.instances[i].read == |s.log|
             && forall j :: 0 <= j < |s.instances| ==> s.instances[j].writing.Quiet?
    ensures Exec(s0, actions).value.instances[i].cache == Exec(s0, actions).value.redis
  {
    var s := Exec(s0, actions).value;
    forall c
      ensures At(s.instances[i].cache, c) == At(s.redis, c)
    {
      RunSettles(s0, actions, i, c);
    }
    SameSlots(s.instances[i].cache, s.redis);
  }

  /** So what it holds under a code is what the last change that names the code says. */
  lemma DrainedCacheHoldsTheLastWrite(s0: State, actions: seq<Action>, i: nat, k: nat, c: Code)
    requires Initial(s0) && Exec(s0, actions).Some? && i < |s0.instances|
    requires var s := Exec(s0, actions).value;
             && |s.instances| == |s0.instances|
             && s.instances[i].read == |s.log|
             && forall j :: 0 <= j < |s.instances| ==> s.instances[j].writing.Quiet?
    requires LastToChange(actions, k, c)
    ensures At(Exec(s0, actions).value.instances[i].cache, c) ==
      if c in actions[k].change.sets then Some(actions[k].change.sets[c]) else None
  {
    DrainedCacheAgrees(s0, actions, i);
    RedisHoldsTheLastWrite(s0, actions, k, c);
  }

  lemma SameSlots(a: Slots, b: Slots)
    requires forall c :: At(a, c) == At(b, c)
    ensures a == b
  {
    forall c
      ensures c in a <==> c in b
      ensures c in a && c in b ==> a[c] == b[c]
    {
      assert At(a, c) == At(b, c);
    }
    assert a.Keys == b.Keys;
  }
}
