/**
  The sampling policy of `FrameReader`: every successful read advances a
  counter; while the counter is at most `skip_frames` the frame is dropped,
  otherwise the counter goes back to zero and the frame is handed to the
  registered callback, if there is one.
  The capture device, the reader thread, the running flag's shutdown and the
  lock are left out: a run of the read loop is given the sequence of results
  that `cap.read()` returned, `None` for a failed read.
*/
module Frames {
  import opened Wrappers

  /** The identity of a registered consumer callback. */
  datatype Callback = Callback(id: nat)

  /** One state change of the counter on a successful read: the new counter and whether the frame is delivered. */
  datatype Tick = Tick(counter: int, deliver: bool)

  function Advance(counter: int, skipFrames: int): (t: Tick)
    ensures t.deliver <==> counter + 1 > skipFrames
    ensures t.deliver ==> t.counter == 0
    ensures !t.deliver ==> t.counter == counter + 1
  {
    var c := counter + 1;
    if c <= skipFrames then Tick(c, false) else Tick(0, true)
  }

  /** The outcome of a run of reads: the final counter and the frames handed to `_trigger_callback`, in order. */
  datatype Run<F> = Run(counter: int, delivered: seq<F>)

  /** The read loop over `results`, starting from `counter`. */
  function RunReads<F>(counter: int, skipFrames: int, results: seq<Option<F>>): (r: Run<F>)
    ensures |r.delivered| <= |results|
    decreases |results|
  {
    if results == [] then Run(counter, [])
    else
      var prev := RunReads(counter, skipFrames, results[..|results| - 1]);
      match results[|results| - 1]
      case None => prev
      case Some(frame) =>
        var t := Advance(prev.counter, skipFrames);
        if t.deliver then Run(t.counter, prev.delivered + [frame]) else Run(t.counter, prev.delivered)
  }

  /** Between reads the counter stays within `0 ..= max(skip_frames, 0)`. */
  lemma {:induction false} CounterStaysInRange<F>(counter: int, skipFrames: int, results: seq<Option<F>>)
    requires 0 <= counter <= if skipFrames < 0 then 0 else skipFrames
    ensures 0 <= RunReads(counter, skipFrames, results).counter <= if skipFrames < 0 then 0 else skipFrames
    decreases |results|
  {
    if results != [] {
      CounterStaysInRange(counter, skipFrames, results[..|results| - 1]);
    }
  }

  /** Every read succeeded. */
  predicate AllRead<F>(results: seq<Option<F>>) {
    forall i :: 0 <= i < |results| ==> results[i].Some?
  }

  /**
    With `skip_frames = k >= 0`, counter 0 at the start and n successful reads,
    the frames delivered are reads k+1, 2(k+1), ..., which is n div (k+1) of
    them, and the counter ends at n mod (k+1); written with the quotient q and
    remainder c of n by k+1.
  */
  lemma {:induction false} SamplingByQuotient<F>(skipFrames: nat, results: seq<Option<F>>, q: nat, c: nat)
    requires AllRead(results)
    requires |results| == q * (skipFrames + 1) + c && c <= skipFrames
    ensures RunReads(0, skipFrames, results).counter == c
    ensures |RunReads(0, skipFrames, results).delivered| == q
    ensures forall i :: 0 <= i < q ==>
      RunReads(0, skipFrames, results).delivered[i] == results[(i + 1) * (skipFrames + 1) - 1].value
    decreases |results|
  {
    if results != [] {
      if c > 0 {
        DroppedRead(skipFrames, results, q, c);
      } else {
        DeliveredRead(skipFrames, results, q);
      }
    }
  }

  /** `a <= b` is kept by multiplying both sides by the same natural number. */
  lemma MulMonotone(a: nat, b: nat, m: nat)
    requires a <= b
    ensures a * m <= b * m
  {
  }

  /** The i-th delivered frame (i < q) is the last read of a full cycle, inside the first q cycles. */
  lemma SampleIndex(i: nat, q: nat, k: nat)
    requires i < q
    ensures 0 <= (i + 1) * (k + 1) - 1 < q * (k + 1)
  {
    MulMonotone(i + 1, q, k + 1);
    MulMonotone(1, i + 1, k + 1);
  }

  /** The induction step of `SamplingByQuotient` for a read that is dropped (remainder c > 0). */
  lemma {:induction false} DroppedRead<F>(k: nat, results: seq<Option<F>>, q: nat, c: nat)
    requires AllRead(results) && 0 < c <= k
    requires |results| == q * (k + 1) + c
    ensures RunReads(0, k, results).counter == c
    ensures |RunReads(0, k, results).delivered| == q
    ensures forall i :: 0 <= i < q ==>
      RunReads(0, k, results).delivered[i] == results[(i + 1) * (k + 1) - 1].value
    decreases |results|, 0
  {
    var init := results[..|results| - 1];
    assert AllRead(init);
    SamplingByQuotient(k, init, q, c - 1);
    var prev := RunReads(0, k, init);
    var r := RunReads(0, k, results);
    assert r == Run(c, prev.delivered);
    SamplesKept(k, q, init, results, prev.delivered);
  }

  /** Frames sampled from the first reads are still the frames at those positions once more reads follow. */
  lemma SamplesKept<F>(k: nat, q: nat, init: seq<Option<F>>, results: seq<Option<F>>, delivered: seq<F>)
    requires AllRead(init) && AllRead(results)
    requires |init| <= |results| && init == results[..|init|]
    requires q * (k + 1) <= |init| && |delivered| == q
    requires forall i :: 0 <= i < q ==> delivered[i] == init[(i + 1) * (k + 1) - 1].value
    ensures forall i :: 0 <= i < q ==> delivered[i] == results[(i + 1) * (k + 1) - 1].value
  {
    forall i | 0 <= i < q
      ensures delivered[i] == results[(i + 1) * (k + 1) - 1].value
    {
      SampleIndex(i, q, k);
      var j := (i + 1) * (k + 1) - 1;
      assert init[j] == results[j];
    }
  }

  /** The induction step of `SamplingByQuotient` for a read that is delivered (remainder 0). */
  lemma {:induction false} DeliveredRead<F>(k: nat, results: seq<Option<F>>, q: nat)
    requires AllRead(results) && results != []
    requires |results| == q * (k + 1)
    ensures RunReads(0, k, results).counter == 0
    ensures |RunReads(0, k, results).delivered| == q
    ensures forall i :: 0 <= i < q ==>
      RunReads(0, k, results).delivered[i] == results[(i + 1) * (k + 1) - 1].value
    decreases |results|, 0
  {
    var init := results[..|results| - 1];
    assert AllRead(init);
    assert q > 0;
    assert q * (k + 1) == (q - 1) * (k + 1) + (k + 1);
    SamplingByQuotient(k, init, q - 1, k);
    var prev := RunReads(0, k, init);
    var r := RunReads(0, k, results);
    assert r == Run(0, prev.delivered + [results[|results| - 1].value]);
    forall i | 0 <= i < q
      ensures r.delivered[i] == results[(i + 1) * (k + 1) - 1].value
    {
      if i < q - 1 {
        SampleIndex(i, q - 1, k);
        var j := (i + 1) * (k + 1) - 1;
        assert init[j] == results[j];
      } else {
        assert i + 1 == q;
        assert (i + 1) * (k + 1) - 1 == |results| - 1;
        assert |prev.delivered| == i;
      }
    }
  }

  /** The same in terms of `div` and `mod`: n successful reads deliver n div (k+1) frames. */
  lemma SamplingRate<F>(skipFrames: nat, results: seq<Option<F>>)
    requires AllRead(results)
    ensures RunReads(0, skipFrames, results).counter == |results| % (skipFrames + 1)
    ensures |RunReads(0, skipFrames, results).delivered| == |results| / (skipFrames + 1)
  {
    SamplingByQuotient(skipFrames, results, |results| / (skipFrames + 1), |results| % (skipFrames + 1));
  }

  /** With `skip_frames = 0` every successful read is delivered. */
  lemma NoSkipDeliversEveryFrame<F>(results: seq<Option<F>>)
    requires AllRead(results)
    ensures |RunReads(0, 0, results).delivered| == |results|
    ensures forall i :: 0 <= i < |results| ==> RunReads(0, 0, results).delivered[i] == results[i].value
  {
    SamplingByQuotient(0, results, |results|, 0);
  }

  /** A failed read changes nothing: neither the counter nor what is delivered. */
  lemma {:induction false} FailedReadIsInvisible<F>(counter: int, skipFrames: int, before: seq<Option<F>>, after: seq<Option<F>>)
    ensures RunReads(counter, skipFrames, before + [None] + after) == RunReads(counter, skipFrames, before + after)
    decreases |after|
  {
    if after == [] {
      assert (before + [None] + after)[..|before| + 1 - 1] == before;
      assert before + after == before;
    } else {
      var init := after[..|after| - 1];
      FailedReadIsInvisible(counter, skipFrames, before, init);
      assert (before + [None] + after)[..|before + [None] + after| - 1] == before + [None] + init;
      assert (before + after)[..|before + after| - 1] == before + init;
    }
  }

  /** The callback invocations that delivering `frames` to `callback` makes; none for a `None` callback. */
  function Invocations<F>(callback: Option<Callback>, frames: seq<F>): (calls: seq<(Callback, F)>)
    ensures callback.None? ==> calls == []
    ensures callback.Some? ==> |calls| == |frames|
    ensures callback.Some? ==> forall i :: 0 <= i < |frames| ==> calls[i] == (callback.value, frames[i])
  {
    if callback.None? then [] else seq(|frames|, i requires 0 <= i < |frames| => (callback.value, frames[i]))
  }

  class FrameReader<F> {
    const skipFrames: int
    var frameCounter: int
    var callback: Option<Callback>
    var running: bool

    ghost predicate Valid()
      reads this
    {
      0 <= frameCounter <= if skipFrames < 0 then 0 else skipFrames
    }

    /** `__init__`: `skipFramesSetting` is what the configuration holds under `skip_frames`, if anything. */
    constructor(skipFramesSetting: Option<int>)
      ensures Valid()
      ensures skipFrames == if skipFramesSetting.Some? then skipFramesSetting.value else 0
      ensures frameCounter == 0 && callback == None && !running
    {
      skipFrames := if skipFramesSetting.Some? then skipFramesSetting.value else 0;
      frameCounter := 0;
      callback := None;
      running := false;
    }

    /** `set_callback`: replace the consumer. */
    method SetCallback(c: Option<Callback>)
      modifies this`callback
      ensures callback == c
    {
      callback := c;
    }

    /** `_trigger_callback`: hand one frame to the consumer, or do nothing when there is none. */
    method TriggerCallback(frame: F) returns (calls: seq<(Callback, F)>)
      ensures calls == Invocations(callback, [frame])
    {
      if callback.Some? {
        calls := [(callback.value, frame)];
      } else {
        calls := [];
      }
    }

    /** `_read_frames`, over the results of the reads made while the reader was running. */
    method ReadFrames(results: seq<Option<F>>) returns (calls: seq<(Callback, F)>)
      requires Valid()
      modifies this`frameCounter
      ensures Valid()
      ensures frameCounter == RunReads(old(frameCounter), skipFrames, results).counter
      ensures calls == Invocations(callback, RunReads(old(frameCounter), skipFrames, results).delivered)
    {
      ghost var start := frameCounter;
      calls := [];
      var i := 0;
      while i < |results|
        invariant 0 <= i <= |results|
        invariant Valid()
        invariant frameCounter == RunReads(start, skipFrames, results[..i]).counter
        invariant calls == Invocations(callback, RunReads(start, skipFrames, results[..i]).delivered)
      {
        assert results[..i + 1][..i] == results[..i];
        var read := results[i];
        i := i + 1;
        if read.None? {
          continue;
        }
        frameCounter := frameCounter + 1;
        if frameCounter <= skipFrames {
          continue;
        }
        frameCounter := 0;
        var sent := TriggerCallback(read.value);
        calls := calls + sent;
      }
      assert results[..i] == results;
    }
  }
}
