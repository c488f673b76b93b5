/** Posting many objects as messages of at most twenty, and consuming them. */
module Batching {
  import opened Common
  import opened PlanningEnv

  const STEP: nat := 20

  /** The objects known under the given codes, in order. */
  function Known<T>(codes: seq<Code>, objects: map<Code, T>): (r: seq<T>) {
    if codes == [] then []
    else (if codes[0] in objects then [objects[codes[0]]] else []) + Known(codes[1..], objects)
  }

  lemma {:induction false} KnownConcat<T>(a: seq<Code>, b: seq<Code>, objects: map<Code, T>)
    ensures Known(a + b, objects) == Known(a, objects) + Known(b, objects)
  {
    if a == [] {
      assert a + b == b;
    } else {
      assert (a + b)[1..] == a[1..] + b;
      KnownConcat(a[1..], b, objects);
      Associate(if a[0] in objects then [objects[a[0]]] else [], Known(a[1..], objects), Known(b, objects));
    }
  }

  /** In the place of each code stands its object if there is one, and nothing for an unknown code. */
  lemma KnownInOrder<T>(a: seq<Code>, code: Code, b: seq<Code>, objects: map<Code, T>)
    ensures Known(a + [code] + b, objects) ==
      Known(a, objects) + (if code in objects then [objects[code]] else []) + Known(b, objects)
    ensures Known([], objects) == []
  {
    KnownConcat(a + [code], b, objects);
    KnownConcat(a, [code], objects);
    assert [code][1..] == [];
  }

  /** Posts the known objects in order; `messages` are the payloads in the order they were sent. */
  method PostInBatches<T>(codes: seq<Code>, objects: map<Code, T>) returns (messages: seq<seq<T>>)
    ensures Flatten(messages) == Known(codes, objects)
    ensures forall i :: 0 <= i < |messages| ==> 1 <= |messages[i]| <= 20
    ensures forall i :: 0 <= i < |messages| - 1 ==> |messages[i]| == 20
    ensures |messages| == (|Known(codes, objects)| + 19) / 20
  {
    var found := Known(codes, objects);
    messages := [];
    if |found| > 0 {
      var index := 0;
      while index * STEP < |found|
        invariant index == |messages|
        invariant Flatten(messages) == found[..Min(index * STEP, |found|)]
        invariant forall i :: 0 <= i < |messages| ==> 1 <= |messages[i]| <= STEP
        invariant forall i :: 0 <= i < |messages| && (i + 1) * STEP <= |found| ==> |messages[i]| == STEP
        invariant index > 0 ==> (index - 1) * STEP < |found|
        decreases |found| - index * STEP
      {
        var from, end := index * STEP, Min((index + 1) * STEP, |found|);
        FlattenSnoc(messages, found[from..end]);
        TakeMore(found, from, end);
        messages := messages + [found[from..end]];
        index := index + 1;
      }
    }
  }

  lemma TakeMore<T>(s: seq<T>, from: nat, end: nat)
    requires from <= end <= |s|
    ensures s[..from] + s[from..end] == s[..end]
  {
  }

  /** The payloads as messages of one instance. */
  function FromSource(source: Code, payloads: seq<seq<Reading>>): (r: seq<Received>)
    ensures |r| == |payloads|
  {
    if payloads == [] then [] else [Received(source, payloads[0])] + FromSource(source, payloads[1..])
  }

  lemma {:induction false} SeenOfBatches(instCode: Code, source: Code, payloads: seq<seq<Reading>>)
    ensures Visible(instCode, FromSource(source, payloads)) == if source == instCode then [] else Flatten(payloads)
  {
    if payloads != [] {
      SeenOfBatches(instCode, source, payloads[1..]);
      VisibleCons(instCode, Received(source, payloads[0]), FromSource(source, payloads[1..]));
    }
  }

  /**
   Batching is transparent to one pass: the consumer has the same jobs and raises or not as if
   all entries had come in one message, its own messages and exceptions included.
   */
  lemma BatchesAreOneMessage(jobs: Jobs, instCode: Code, source: Code, payloads: seq<seq<Reading>>)
    ensures Read(jobs, instCode, FromSource(source, payloads)) == Read(jobs, instCode, [Received(source, Flatten(payloads))])
  {
    ReadIsHandle(jobs, instCode, FromSource(source, payloads));
    SeenOfBatches(instCode, source, payloads);
    var one := Received(source, Flatten(payloads));
    ReadIsHandle(jobs, instCode, [one]);
    VisibleCons(instCode, one, []);
    assert [one] + [] == [one];
  }

  /**
   What differs is the next pass. Where a batch raises, the entries behind the raising one in
   that batch are lost either way; those of the later batches are lost with one message and
   still consumed with batches, from the jobs the one message would have left.
   */
  lemma LaterBatchesSurvive(jobs: Jobs, instCode: Code, source: Code, payloads: seq<seq<Reading>>)
    ensures var batches, one := FromSource(source, payloads), [Received(source, Flatten(payloads))];
      var n := Taken(jobs, instCode, batches);
      && Drain(jobs, instCode, batches) == Drain(Drain(jobs, instCode, one), instCode, FromSource(source, payloads[n..]))
      && (!Read(jobs, instCode, one).raised ==> n == |payloads| && Drain(jobs, instCode, batches) == Drain(jobs, instCode, one))
  {
    var batches, one := FromSource(source, payloads), [Received(source, Flatten(payloads))];
    var n := Taken(jobs, instCode, batches);
    PassesDrain(jobs, instCode, batches);
    BatchesAreOneMessage(jobs, instCode, source, payloads);
    DrainOne(jobs, instCode, one[0]);
    LaterBatches(source, payloads, n);
  }

  lemma DrainOne(jobs: Jobs, instCode: Code, m: Received)
    ensures Drain(jobs, instCode, [m]) == HandleMessage(jobs, instCode, m).jobs
    ensures Read(jobs, instCode, [m]) == HandleMessage(jobs, instCode, m)
  {
    assert [m][1..] == [];
  }

  lemma {:induction false} LaterBatches(source: Code, payloads: seq<seq<Reading>>, n: nat)
    requires n <= |payloads|
    ensures FromSource(source, payloads)[n..] == FromSource(source, payloads[n..])
  {
    if n > 0 {
      LaterBatches(source, payloads[1..], n - 1);
      assert payloads[1..][n - 1..] == payloads[n..];
    } else {
      assert payloads[0..] == payloads;
    }
  }

  /** The instance that posted the batches skips all of them. */
  lemma OwnBatchesAreSkipped(jobs: Jobs, instCode: Code, payloads: seq<seq<Reading>>)
    ensures Read(jobs, instCode, FromSource(instCode, payloads)) == Handled(jobs, false)
  {
    ReadIsHandle(jobs, instCode, FromSource(instCode, payloads));
    SeenOfBatches(instCode, instCode, payloads);
  }

  /** The messages of one instance, before anyone reads them. */
  function Posted(source: Code, payloads: seq<seq<Change>>): (r: seq<Message>)
    ensures |r| == |payloads| && forall k :: 0 <= k < |payloads| ==> r[k] == Message(source, payloads[k])
  {
    seq(|payloads|, k requires 0 <= k < |payloads| => Message(source, payloads[k]))
  }

  /** The payloads as a reader receives them that has read n messages before. */
  function DatedAll(payloads: seq<seq<Change>>, clock: Clock, n: nat): (r: seq<seq<Reading>>)
    ensures |r| == |payloads|
    ensures forall k :: 0 <= k < |payloads| ==> r[k] == Dated(payloads[k], EndsOf(clock, n + k))
  {
    seq(|payloads|, k requires 0 <= k < |payloads| => Dated(payloads[k], EndsOf(clock, n + k)))
  }

  lemma {:induction false} FromSourceAt(source: Code, payloads: seq<seq<Reading>>, k: nat)
    requires k < |payloads|
    ensures FromSource(source, payloads)[k] == Received(source, payloads[k])
  {
    if k > 0 { FromSourceAt(source, payloads[1..], k - 1); }
  }

  lemma PostedIsReceived(log: seq<Message>, source: Code, payloads: seq<seq<Change>>, clock: Clock)
    ensures ReceivedBy(clock, log + Posted(source, payloads))[|log|..] == FromSource(source, DatedAll(payloads, clock, |log|))
  {
    var n := |log|;
    var received, dated := ReceivedBy(clock, log + Posted(source, payloads)), DatedAll(payloads, clock, n);
    forall k | 0 <= k < |payloads| ensures received[n..][k] == FromSource(source, dated)[k] {
      FromSourceAt(source, dated, k);
    }
  }

  /** The entries without the times they were read at. */
  function Undated(readings: seq<Reading>): (r: seq<Change>)
    ensures |r| == |readings| && forall i :: 0 <= i < |readings| ==> r[i] == readings[i].change
  {
    seq(|readings|, i requires 0 <= i < |readings| => readings[i].change)
  }

  lemma {:induction false} DatedFlatten(payloads: seq<seq<Change>>, clock: Clock, n: nat)
    ensures Undated(Flatten(DatedAll(payloads, clock, n))) == Flatten(payloads)
    decreases |payloads|
  {
    if payloads != [] {
      var dated := DatedAll(payloads, clock, n);
      DatedFlatten(payloads[1..], clock, n + 1);
      assert dated[1..] == DatedAll(payloads[1..], clock, n + 1);
      assert Undated(dated[0] + Flatten(dated[1..])) == Undated(dated[0]) + Undated(Flatten(dated[1..]));
      assert Undated(dated[0]) == payloads[0];
    }
  }

  /**
   Posts the known entries in batches, and lets an environment at the log's end consume them in
   one pass: it ends as after one message with all of them, read at the same times.
   */
  method PostAndConsume(source: Code, codes: seq<Code>, entries: map<Code, Change>, log: seq<Message>, clock: Clock, env: Environment)
    returns (raised: bool, log': seq<Message>, ghost read: seq<Reading>)
    requires env.position == |log|
    modifies env
    ensures Undated(read) == Known(codes, entries)
    ensures Handled(env.jobs, raised) == HandleMessage(old(env.jobs), env.instCode, Received(source, read))
  {
    var payloads := PostInBatches(codes, entries);
    log' := log + Posted(source, payloads);
    ghost var dated := DatedAll(payloads, clock, |log|);
    read := Flatten(dated);
    DatedFlatten(payloads, clock, |log|);
    BatchesAreOneMessage(env.jobs, env.instCode, source, dated);
    DrainOne(env.jobs, env.instCode, Received(source, read));
    PostedIsReceived(log, source, payloads, clock);
    raised := env.ConsumeEnvMessages(log', clock);
  }
}
