/**
  The streaming decoder (the sherpa-ncnn engine behind SherpaNcnnNative) as an abstract
  object. Its acoustic model is not modelled; instead it holds
  - `pending`: decodable feature frames accepted but not decoded yet (what makes `isReady`
    true, and what the decode loop uses up), and
  - `script`: the hypothesis updates its future decode steps will produce, in order.
  Any concrete engine behaviour is one choice of script and of the frame counts that
  `acceptSamples` contributes.
*/
module Decoding {
  import opened Base

  /** What one decode step reports: the hypothesis text and whether an endpoint was reached. */
  datatype Hypothesis = Hypothesis(text: string, endpoint: bool)

  /** The observable state of a decoder. */
  datatype DecoderState = DecoderState(pending: nat, text: string, endpoint: bool, script: seq<Hypothesis>)

  /** A newly created engine: nothing buffered, empty hypothesis. */
  function Created(script: seq<Hypothesis>): (d: DecoderState)
  {
    DecoderState(0, "", false, script)
  }

  /** `isReady()`: there is buffered audio to decode. */
  predicate HasWork(d: DecoderState) {
    d.pending > 0
  }

  /** `acceptSamples`: the block completes `frames` more decodable frames. */
  function Accepted(d: DecoderState, frames: nat): (r: DecoderState)
    ensures r.pending == d.pending + frames
    ensures r.text == d.text && r.endpoint == d.endpoint && r.script == d.script
  {
    d.(pending := d.pending + frames)
  }

  /** `decode()`: consumes one frame (if any) and takes the next hypothesis update (if any). */
  function Step(d: DecoderState): (r: DecoderState)
    // one buffered frame is used up, never more than there is
    ensures r.pending == if HasWork(d) then d.pending - 1 else 0
    // the next scripted update becomes the hypothesis and leaves the script
    ensures d.script != [] ==> [Hypothesis(r.text, r.endpoint)] + r.script == d.script
    // with nothing scripted the hypothesis stays as it was
    ensures d.script == [] ==> r.text == d.text && r.endpoint == d.endpoint && r.script == []
  {
    var p := if d.pending > 0 then d.pending - 1 else 0;
    if d.script == [] then d.(pending := p)
    else DecoderState(p, d.script[0].text, d.script[0].endpoint, d.script[1..])
  }

  /** The state after `while (isReady()) decode()`. */
  function Drain(d: DecoderState): (r: DecoderState)
    // the loop ends only when the engine has no more work
    ensures !HasWork(r)
    decreases d.pending
  {
    if HasWork(d) then Drain(Step(d)) else d
  }

  /** `reset(recreate)`: the hypothesis and the endpoint flag are cleared; recreating the
      stream also drops the buffered frames. */
  function Cleared(d: DecoderState, recreate: bool): (r: DecoderState)
    ensures r.text == "" && !r.endpoint && r.script == d.script
    ensures r.pending == if recreate then 0 else d.pending
  {
    DecoderState(if recreate then 0 else d.pending, "", false, d.script)
  }


  /** The decode loop interrupted by an exception from `isReady()` or `decode()` once `k`
      decode steps have completed; it also ends when the engine has no more work. */
  function DrainAtMost(d: DecoderState, k: nat): (r: DecoderState)
    // exactly min(k, pending) steps are taken, one buffered frame each
    ensures r.pending == d.pending - Min(k, d.pending)
    decreases k
  {
    if k == 0 || !HasWork(d) then d else DrainAtMost(Step(d), k - 1)
  }

  /** The decode loop, run to the end (`fault` is None) or interrupted by an exception once
      `fault.value` decode steps have completed. */
  function DecodeLoop(d: DecoderState, fault: Option<nat>): (r: DecoderState)
    // run to the end, the loop leaves no work; interrupted, it leaves the frames it did not reach
    ensures r.pending == match fault case None => 0 case Some(k) => d.pending - Min(k, d.pending)
    // either way, what a later uninterrupted loop produces is what this one would have
    ensures Drain(r) == Drain(d)
  {
    match fault
    case None => Drain(d)
    case Some(k) => DrainResumes(d, k); DrainAtMost(d, k)
  }

  /** After the decode loop the decoder is no longer ready; the loop took one hypothesis
      update per buffered frame, as far as the script goes, and reports the last one it took. */
  lemma {:induction false} DrainEffect(d: DecoderState)
    ensures var r := Drain(d); var k := Min(d.pending, |d.script|);
      && !HasWork(r)
      && r.script == d.script[k..]
      && (k == 0 ==> r.text == d.text && r.endpoint == d.endpoint)
      && (k > 0 ==> r.text == d.script[k - 1].text && r.endpoint == d.script[k - 1].endpoint)
    decreases d.pending
  {
    if HasWork(d) {
      var s := Step(d);
      DrainEffect(s);
      assert Drain(d) == Drain(s);
      var j := Min(s.pending, |s.script|);
      assert s.pending == d.pending - 1;
      if d.script != [] {
        assert s.script == d.script[1..];
        assert j + 1 == Min(d.pending, |d.script|);
        assert d.script[1..][j..] == d.script[j + 1..];
        if j > 0 {
          assert d.script[1..][j - 1] == d.script[j];
        }
      } else {
        assert s.script == [] && j == 0;
      }
    }
  }

  /** An interrupted decode loop takes the first `min(k, pending)` steps, one hypothesis
      update each as far as the script goes. */
  lemma {:induction false} DrainAtMostEffect(d: DecoderState, k: nat)
    ensures var r := DrainAtMost(d, k); var n := Min(k, d.pending); var j := Min(n, |d.script|);
      && r.pending == d.pending - n
      && r.script == d.script[j..]
      && (j == 0 ==> r.text == d.text && r.endpoint == d.endpoint)
      && (j > 0 ==> r.text == d.script[j - 1].text && r.endpoint == d.script[j - 1].endpoint)
    decreases k
  {
    if k > 0 && HasWork(d) {
      var s := Step(d);
      DrainAtMostEffect(s, k - 1);
      assert DrainAtMost(d, k) == DrainAtMost(s, k - 1);
      var j := Min(Min(k - 1, s.pending), |s.script|);
      assert s.pending == d.pending - 1;
      if d.script != [] {
        assert s.script == d.script[1..];
        assert j + 1 == Min(Min(k, d.pending), |d.script|);
        assert d.script[1..][j..] == d.script[j + 1..];
        if j > 0 {
          assert d.script[1..][j - 1] == d.script[j];
        }
      } else {
        assert s.script == [] && j == 0;
      }
    }
  }

  /** An exception that comes no earlier than the last decode step interrupts nothing. */
  lemma {:induction false} LateFaultIsHarmless(d: DecoderState, k: nat)
    requires d.pending <= k
    ensures DrainAtMost(d, k) == Drain(d)
    decreases k
  {
    if k > 0 && HasWork(d) {
      LateFaultIsHarmless(Step(d), k - 1);
    }
  }

  /** The work an interrupted loop leaves is what an uninterrupted loop would still do. */
  lemma {:induction false} DrainResumes(d: DecoderState, k: nat)
    ensures Drain(DrainAtMost(d, k)) == Drain(d)
    decreases k
  {
    if k > 0 && HasWork(d) {
      var s := Step(d);
      DrainResumes(s, k - 1);
      assert DrainAtMost(d, k) == DrainAtMost(s, k - 1);
      assert Drain(d) == Drain(s);
    }
  }

  /** The decoder object. */
  class Decoder {
    var pending: nat
    var text: string
    var endpoint: bool
    var script: seq<Hypothesis>

    /** The abstract value of the object. */
    function State(): DecoderState
      reads this
    {
      DecoderState(pending, text, endpoint, script)
    }

    constructor (script: seq<Hypothesis>)
      ensures State() == Created(script)
    {
      this.pending := 0;
      this.text := "";
      this.endpoint := false;
      this.script := script;
    }

    method AcceptSamples(frames: nat)
      modifies this
      ensures State() == Accepted(old(State()), frames)
    {
      pending := pending + frames;
    }

    predicate IsReady()
      reads this
    {
      HasWork(State())
    }

    method Decode()
      modifies this
      ensures State() == Step(old(State()))
    {
      if pending > 0 {
        pending := pending - 1;
      }
      if script != [] {
        text, endpoint := script[0].text, script[0].endpoint;
        script := script[1..];
      }
    }

    function IsEndpoint(): bool
      reads this
    {
      endpoint
    }

    function Text(): string
      reads this
    {
      text
    }

    method Reset(recreate: bool)
      modifies this
      ensures State() == Cleared(old(State()), recreate)
    {
      if recreate {
        pending := 0;
      }
      text, endpoint := "", false;
    }
  }
}
