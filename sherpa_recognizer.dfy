/**
  SherpaVoiceRecognizer: the recognizer's lifecycle state machine and the body of its
  capture loop. Every operation is given twice: as a function from the recognizer's
  abstract state (a Snapshot) to the state after the call and the listener callbacks it
  makes, and as a method of the class that changes the fields in place and is proved to
  agree with that function. The properties are stated about the functions.

  The microphone (AudioRecord) is abstracted to the outcomes the code reacts to: whether
  it could be opened, and per capture iteration the count `ret` that `read` returns or
  the exception it throws. The capture thread is a sequence of such iterations.
*/
module SherpaRecognizer {
  import opened Base
  import opened VoiceTypes
  import opened TextCleanup
  import opened Decoding

  /** The text sent every 500th frame to show that recording is running. */
  const PLACEHOLDER: string := "[录音中...]"
  const PLACEHOLDER_PERIOD: nat := 500

  /** The partial result that carries the placeholder. */
  const PlaceholderResult: RecognitionResult := RecognitionResult(PLACEHOLDER, true, false)

  /** The abstract state of a recognizer. `capturing` says that the capture thread is still in
      its loop (it leaves it when `isRecording` is cleared or when `read` throws). */
  datatype Snapshot = Snapshot(
    state: RecognitionState,
    recording: bool,
    capturing: bool,
    currentText: string,
    lastRecognizedText: string,
    frameCount: nat,
    engine: Option<DecoderState>)

  /** A newly constructed recognizer. */
  const Constructed: Snapshot := Snapshot(Idle, false, false, "", "", 0, None)

  /** The state after an operation, and the listener callbacks it made, in order. */
  datatype Transition = Transition(next: Snapshot, events: seq<Event>)

  /** The same, for an operation that also returns a Boolean. */
  datatype Answer = Answer(next: Snapshot, events: seq<Event>, ok: bool)

  /** How creating the native engine ends. */
  datatype CreateOutcome = EngineCreated | EngineLinkError | EngineFailed

  /** What one capture iteration observes: `read` throws, or returns `ret`; for a block that is
      fed to the engine, how many decodable frames it completes, and where an exception
      interrupts one of the three guarded steps:
      - `acceptThrows`: `acceptSamples` throws, and the iteration ends there;
      - `decodeFault`: `isReady()` or `decode()` throws once that many decode steps have
        completed (None: the decode loop runs to its end);
      - `queryThrows`: `isEndpoint()` or `text` throws, before the result step changes anything;
      - `resetThrows`: the `reset()` after an endpoint throws, once the result has been sent. */
  datatype Frame = Frame(
    readThrows: bool,
    ret: int,
    produced: nat,
    acceptThrows: bool,
    decodeFault: Option<nat>,
    queryThrows: bool,
    resetThrows: bool)

  // -----------------------------------------------------------------------------------
  // initialize

  /** `initialize()`. */
  function AfterInitialize(m: Snapshot, nativeLoaded: bool, outcome: CreateOutcome, script: seq<Hypothesis>): (a: Answer)
    ensures a.ok <==> nativeLoaded && outcome == EngineCreated
    ensures a.ok ==> a.next == m.(state := Ready, engine := Some(Created(script))) && a.events == [OnStateChanged(Ready)]
    ensures !a.ok ==> a.next == m.(state := Error) && |a.events| == 1 && a.events[0].OnError?
    ensures !nativeLoaded ==> a.events == [OnError(LibraryMissing)]
  {
    if !nativeLoaded then Answer(m.(state := Error), [OnError(LibraryMissing)], false)
    else match outcome
      case EngineCreated => Answer(m.(state := Ready, engine := Some(Created(script))), [OnStateChanged(Ready)], true)
      case EngineLinkError => Answer(m.(state := Error), [OnError(LinkError)], false)
      case EngineFailed => Answer(m.(state := Error), [OnError(InitFailed)], false)
  }

  // -----------------------------------------------------------------------------------
  // startRecognition

  /** `startRecognition()`: `micOk` says whether the microphone could be opened and started,
      `resetThrows` whether the engine's `reset(true)` throws (which is caught and logged). */
  function AfterStart(m: Snapshot, micOk: bool, resetThrows: bool): (a: Answer)
    ensures m.state != Ready ==> a == Answer(m, [], false)
    ensures a.ok <==> m.state == Ready && micOk
    ensures a.ok ==> && a.next == m.(state := Recording, recording := true, capturing := true,
                                     currentText := "", lastRecognizedText := "", frameCount := 0,
                                     engine := a.next.engine)
                     && a.events == [OnStateChanged(Recording)]
    // the engine's stream is recreated, unless that reset throws
    ensures a.ok ==> a.next.engine == if m.engine.None? || resetThrows then m.engine
                                      else Some(Cleared(m.engine.value, true))
    ensures m.state == Ready && !micOk ==> a.next == m.(state := Error) && a.events == [OnError(StartFailed)]
  {
    if m.state != Ready then Answer(m, [], false)
    else if !micOk then Answer(m.(state := Error), [OnError(StartFailed)], false)
    else
      var engine := match m.engine case None => None case Some(d) => if resetThrows then Some(d) else Some(Cleared(d, true));
      Answer(Snapshot(Recording, true, true, "", "", 0, engine), [OnStateChanged(Recording)], true)
  }

  // -----------------------------------------------------------------------------------
  // stopRecognition

  /** `stopRecognition()`. */
  function AfterStop(m: Snapshot): (t: Transition)
    ensures !m.recording ==> t == Transition(m, [])
    // recording and the capture loop end in READY; the texts, the engine and the frame count are kept
    ensures m.recording ==> t.next == m.(recording := false, capturing := false, state := Ready)
    // the current text, when not blank, is sent as the one final result, and READY is reported last
    ensures m.recording ==> t.events == (if IsBlank(m.currentText) then []
                                         else [OnResult(RecognitionResult(m.currentText, false, true))])
                                        + [OnStateChanged(Ready)]
  {
    if !m.recording then Transition(m, [])
    else
      var final := if !IsBlank(m.currentText) then [OnResult(RecognitionResult(m.currentText, false, true))] else [];
      Transition(m.(recording := false, capturing := false, state := Ready), final + [OnStateChanged(Ready)])
  }

  /** A second stopRecognition emits nothing and changes nothing. */
  lemma StopTwice(m: Snapshot)
    ensures var first := AfterStop(m); AfterStop(first.next) == Transition(first.next, [])
  {
  }

  // -----------------------------------------------------------------------------------
  // one iteration of the capture loop (processAudioSamples)

  /** The engine after feeding a block and running the decode loop, up to its end or to the
      exception that interrupts it. */
  function Decoded(d: DecoderState, f: Frame): (r: DecoderState)
    ensures f.decodeFault.None? ==> !HasWork(r)
    // what an interrupted loop leaves undone is what the full loop would still have done
    ensures Drain(r) == Drain(Accepted(d, f.produced))
  {
    var a := Accepted(d, f.produced);
    match f.decodeFault
    case None =>
      DrainEffect(a);
      DecodeLoop(a, None)
    case Some(k) =>
      DrainResumes(a, k);
      DecodeLoop(a, Some(k))
  }

  /** The decode loop of an iteration consumes one buffered frame per step, and one
      hypothesis update per step as far as the script goes: all the buffered frames unless
      an exception interrupts it. */
  lemma DecodedSteps(d: DecoderState, f: Frame)
    ensures var a := Accepted(d, f.produced); var r := Decoded(d, f);
      var n := match f.decodeFault case None => a.pending case Some(k) => Min(k, a.pending);
      r.pending == a.pending - n && r.script == a.script[Min(n, |a.script|)..]
  {
    var a := Accepted(d, f.produced);
    match f.decodeFault
    case None =>
      DrainEffect(a);
    case Some(k) =>
      DrainAtMostEffect(a, k);
  }

  /** The capture loop is running: recording, and the thread has not left its loop. */
  predicate Capturing(m: Snapshot) {
    m.recording && m.capturing
  }

  /** A frame that reaches the result step (line 423 onwards) of an engine in state d. */
  predicate ReachesResultStep(m: Snapshot, f: Frame) {
    Capturing(m) && !f.readThrows && f.ret > 0 && !f.acceptThrows && !f.queryThrows && m.engine.Some?
  }

  /** The iteration sends the placeholder: every 500th frame, counting reads that return. */
  predicate PlaceholderDue(m: Snapshot, f: Frame) {
    Capturing(m) && !f.readThrows && f.ret > 0 && (m.frameCount + 1) % PLACEHOLDER_PERIOD == 0
  }

  /** The number of leading callbacks that are the placeholder. */
  function Skip(m: Snapshot, f: Frame): nat {
    if PlaceholderDue(m, f) then 1 else 0
  }

  /** A decoded result as sent from the result step, seen from the state after it
      (`next`) and before it (`m`). */
  predicate DecodedResult(m: Snapshot, next: Snapshot, r: RecognitionResult) {
    && !IsBlank(r.text) && r.text != m.currentText
    && r.isPartial == !r.isEndpoint
    && next.currentText == r.text
    && (r.isEndpoint ==> next.lastRecognizedText == r.text)
    && (!r.isEndpoint ==> next.lastRecognizedText == m.lastRecognizedText)
  }

  /** The body of `while (isRecording)` in processAudioSamples. */
  function AfterFrame(m: Snapshot, f: Frame): (t: Transition)
    // the loop is not running: nothing happens
    ensures !Capturing(m) ==> t == Transition(m, [])
    // the lifecycle state is never changed by the loop
    ensures t.next.state == m.state && t.next.recording == m.recording
    // a throwing read ends the loop
    ensures Capturing(m) && f.readThrows ==> t == Transition(m.(capturing := false), [])
    ensures Capturing(m) && !f.readThrows ==> t.next.capturing && t.next.frameCount == m.frameCount + 1
    // nothing is fed and nothing is emitted for ret <= 0
    ensures f.ret <= 0 ==> t.events == [] && t.next == m.(frameCount := t.next.frameCount, capturing := t.next.capturing)
    // a failure to feed the block skips decoding and the result step
    ensures f.acceptThrows ==> t.next == m.(frameCount := t.next.frameCount, capturing := t.next.capturing)
                               && forall e | e in t.events :: e == OnResult(PlaceholderResult)
    // only results are emitted
    ensures forall e | e in t.events :: e.OnResult?
  {
    if !Capturing(m) then Transition(m, [])
    else if f.readThrows then Transition(m.(capturing := false), [])
    else
      var count := m.frameCount + 1;
      var m1 := m.(frameCount := count);
      if f.ret <= 0 then Transition(m1, [])
      else
        var placeholder := if count % PLACEHOLDER_PERIOD == 0 then [OnResult(PlaceholderResult)] else [];
        if f.acceptThrows || m.engine.None? then Transition(m1, placeholder)
        else
          AfterFeed(m1, f, placeholder)
  }

  /** The rest of an iteration once the block is read: feed it to the engine, run the decode
      loop unless it throws, then the result step unless querying the engine throws. */
  function AfterFeed(m: Snapshot, f: Frame, sent: seq<Event>): (t: Transition)
    requires m.engine.Some?
    ensures t.next == m.(engine := t.next.engine, currentText := t.next.currentText,
                         lastRecognizedText := t.next.lastRecognizedText)
    ensures t.next.engine.Some? && (f.queryThrows ==> t.events == sent)
  {
    var m2 := m.(engine := Some(Decoded(m.engine.value, f)));
    if f.queryThrows then Transition(m2, sent) else AfterQuery(m2, sent, f.resetThrows)
  }

  /** The result step: read the engine's hypothesis and emit it, after the callbacks
      `sent`, when it is not blank and differs from currentText; an endpoint also resets the
      engine's hypothesis, unless that reset throws. */
  function AfterQuery(m: Snapshot, sent: seq<Event>, resetThrows: bool): (t: Transition)
    requires m.engine.Some?
    ensures t.next.state == m.state && t.next.recording == m.recording && t.next.capturing == m.capturing
    ensures t.next.frameCount == m.frameCount
    ensures t.next.engine.Some? && t.next.engine.value.pending == m.engine.value.pending
    // only an endpoint result whose reset does not throw clears the engine's hypothesis
    ensures var h := m.engine.value;
      t.next.engine == if |t.events| == |sent| + 1 && h.endpoint && !resetThrows then Some(Cleared(h, false))
                       else m.engine
    // the callbacks already sent stay first, and at most one result follows them
    ensures |sent| <= |t.events| <= |sent| + 1 && t.events[..|sent|] == sent
    // a result is emitted exactly when the hypothesis is not blank and differs from currentText
    ensures var h := m.engine.value;
      |t.events| == |sent| + 1 <==> !IsBlank(h.text) && h.text != m.currentText
    ensures var h := m.engine.value;
      |t.events| == |sent| + 1 ==>
        && t.events[|sent|] == OnResult(RecognitionResult(h.text, !h.endpoint, h.endpoint))
        && DecodedResult(m, t.next, t.events[|sent|].result)
    // otherwise nothing changes
    ensures |t.events| == |sent| ==> t.next == m
  {
    var d := m.engine.value;
    if !IsBlank(d.text) && d.text != m.currentText then
      var result := RecognitionResult(d.text, !d.endpoint, d.endpoint);
      if d.endpoint then
        var engine := if resetThrows then m.engine else Some(Cleared(d, false));
        Transition(m.(engine := engine, currentText := d.text, lastRecognizedText := d.text),
                   sent + [OnResult(result)])
      else
        Transition(m.(currentText := d.text), sent + [OnResult(result)])
    else Transition(m, sent)
  }

  /** What one iteration emits: the placeholder when it is due, then at most one decoded
      result, which is sent exactly when the engine's text (after feeding and decoding, whether
      or not the decode loop threw) is not blank and differs from currentText. */
  lemma FrameEmissions(m: Snapshot, f: Frame)
    ensures var t := AfterFrame(m, f);
      && (PlaceholderDue(m, f) ==> |t.events| > 0 && t.events[0] == OnResult(PlaceholderResult))
      && |t.events| <= Skip(m, f) + 1
      && (forall i | Skip(m, f) <= i < |t.events| :: DecodedResult(m, t.next, t.events[i].result))
      // currentText only changes together with an emitted decoded result
      && (t.next.currentText != m.currentText ==> |t.events| == Skip(m, f) + 1)
    ensures ReachesResultStep(m, f) ==>
              var t := AfterFrame(m, f);
              var h := Decoded(m.engine.value, f);
              && (|t.events| == Skip(m, f) + 1 <==> !IsBlank(h.text) && h.text != m.currentText)
              && (|t.events| == Skip(m, f) + 1 ==>
                    t.events[Skip(m, f)] == OnResult(RecognitionResult(h.text, !h.endpoint, h.endpoint)))
              // the hypothesis is cleared after an endpoint result, unless that reset throws
              && t.next.engine == Some(if |t.events| == Skip(m, f) + 1 && h.endpoint && !f.resetThrows
                                       then Cleared(h, false) else h)
  {
  }

  /** After a decode loop that did not throw, the engine is no longer ready. */
  lemma FrameDrainsEngine(m: Snapshot, f: Frame)
    requires Capturing(m) && !f.readThrows && f.ret > 0 && !f.acceptThrows && f.decodeFault.None? && m.engine.Some?
    ensures var t := AfterFrame(m, f); t.next.engine.Some? && !HasWork(t.next.engine.value)
  {
  }

  /** A run of the capture loop over the reads `frames`, in order. */
  function AfterFrames(m: Snapshot, frames: seq<Frame>): (t: Transition)
    // the lifecycle state and the recording flag are the loop's condition, never its effect
    ensures t.next.state == m.state && t.next.recording == m.recording
    // frameCount counts the reads that returned, at most one per read
    ensures m.frameCount <= t.next.frameCount <= m.frameCount + |frames|
    // the loop only ever delivers results
    ensures forall e | e in t.events :: e.OnResult?
    decreases |frames|
  {
    if frames == [] then Transition(m, [])
    else
      var first := AfterFrame(m, frames[0]);
      var rest := AfterFrames(first.next, frames[1..]);
      Transition(rest.next, first.events + rest.events)
  }

  /** A run of one read is that read's iteration. */
  lemma OneRead(m: Snapshot, f: Frame)
    ensures AfterFrames(m, [f]) == AfterFrame(m, f)
  {
    var t := AfterFrame(m, f);
    assert [f][1..] == [];
    assert AfterFrames(t.next, []) == Transition(t.next, []);
    assert t.events + [] == t.events;
  }

  /** A run of two reads is the first read's iteration followed by the second's. */
  lemma TwoReads(m: Snapshot, f: Frame, g: Frame)
    ensures var first := AfterFrame(m, f); var second := AfterFrame(first.next, g);
      AfterFrames(m, [f, g]) == Transition(second.next, first.events + second.events)
  {
    var first := AfterFrame(m, f);
    OneRead(first.next, g);
    assert [f, g][1..] == [g];
  }

  /** A run of two reads whose iterations are known. */
  lemma TwoKnownReads(m: Snapshot, f: Frame, g: Frame, first: Transition, second: Transition)
    requires AfterFrame(m, f) == first && AfterFrame(first.next, g) == second
    ensures AfterFrames(m, [f, g]) == Transition(second.next, first.events + second.events)
  {
    TwoReads(m, f, g);
  }

  /** Once the loop has stopped, further reads change nothing. */
  lemma {:induction false} IdleFrames(m: Snapshot, frames: seq<Frame>)
    requires !Capturing(m)
    ensures AfterFrames(m, frames) == Transition(m, [])
    decreases |frames|
  {
    if frames != [] {
      IdleFrames(m, frames[1..]);
    }
  }

  /** Over a whole capture run the lifecycle state and the recording flag are unchanged,
      and every callback is a result whose isPartial flag is the negation of isEndpoint. */
  lemma {:induction false} CaptureRunResults(m: Snapshot, frames: seq<Frame>)
    ensures var t := AfterFrames(m, frames);
      && t.next.state == m.state && t.next.recording == m.recording
      && forall e | e in t.events :: e.OnResult? && e.result.isPartial == !e.result.isEndpoint
    decreases |frames|
  {
    if frames != [] {
      var first := AfterFrame(m, frames[0]);
      FrameEmissions(m, frames[0]);
      CaptureRunResults(first.next, frames[1..]);
      forall e | e in first.events
        ensures e.OnResult? && e.result.isPartial == !e.result.isEndpoint
      {
        var i :| 0 <= i < |first.events| && first.events[i] == e;
        if i < Skip(m, frames[0]) {
          assert e == OnResult(PlaceholderResult);
        }
      }
    }
  }

  // -----------------------------------------------------------------------------------
  // destroy

  /** `destroy()`: a stop, then the engine is released and the state is DESTROYED. */
  function AfterDestroy(m: Snapshot): (t: Transition)
    ensures t.next.state == Destroyed && t.next.engine.None? && !t.next.recording
    ensures t.events == AfterStop(m).events
    // the texts and the frame count are kept; recording and the capture loop end
    ensures m.recording ==> t.next == m.(recording := false, capturing := false, state := Destroyed, engine := None)
    ensures !m.recording ==> t.next == m.(state := Destroyed, engine := None)
  {
    var stopped := AfterStop(m);
    Transition(stopped.next.(state := Destroyed, engine := None), stopped.events)
  }

  // -----------------------------------------------------------------------------------
  // the class

  class SherpaVoiceRecognizer {
    var state: RecognitionState
    var recording: bool            // isRecording
    var capturing: bool            // the capture thread is inside its loop
    var currentText: string
    var lastRecognizedText: string
    var frameCount: nat            // audioFrameCount of the running capture loop
    var engine: Decoder?           // sherpaNcnn
    ghost var Repr: set<object>

    ghost predicate Valid()
      reads this
    {
      Repr == {this} + (if engine == null then {} else {engine})
    }

    /** The abstract state of the object. */
    ghost function Model(): Snapshot
      reads this, engine
    {
      Snapshot(state, recording, capturing, currentText, lastRecognizedText, frameCount,
               if engine == null then None else Some(engine.State()))
    }

    constructor ()
      ensures Valid() && fresh(Repr) && Model() == Constructed
    {
      state := Idle;
      recording, capturing := false, false;
      currentText, lastRecognizedText := "", "";
      frameCount := 0;
      engine := null;
      Repr := {this};
    }

    method Initialize(nativeLoaded: bool, outcome: CreateOutcome, script: seq<Hypothesis>)
      returns (ok: bool, events: seq<Event>)
      requires Valid()
      modifies this
      ensures Valid() && fresh(Repr - old(Repr))
      ensures var a := AfterInitialize(old(Model()), nativeLoaded, outcome, script);
        Model() == a.next && events == a.events && ok == a.ok
    {
      if !nativeLoaded {
        state := Error;
        return false, [OnError(LibraryMissing)];
      }
      state := Initializing;
      match outcome {
        case EngineCreated =>
          engine := new Decoder(script);
          Repr := {this, engine};
          state := Ready;
          ok, events := true, [OnStateChanged(Ready)];
        case EngineLinkError =>
          state := Error;
          ok, events := false, [OnError(LinkError)];
        case EngineFailed =>
          state := Error;
          ok, events := false, [OnError(InitFailed)];
      }
    }

    method StartRecognition(micOk: bool, resetThrows: bool) returns (ok: bool, events: seq<Event>)
      requires Valid()
      modifies Repr
      ensures Valid() && Repr == old(Repr)
      ensures var a := AfterStart(old(Model()), micOk, resetThrows);
        Model() == a.next && events == a.events && ok == a.ok
    {
      if state != Ready {
        return false, [];
      }
      if !micOk {
        state := Error;
        return false, [OnError(StartFailed)];
      }
      recording := true;
      state := Recording;
      currentText, lastRecognizedText := "", "";
      if engine != null && !resetThrows {
        engine.Reset(true);
      }
      frameCount := 0;
      capturing := true;
      ok, events := true, [OnStateChanged(Recording)];
    }

    method StopRecognition() returns (events: seq<Event>)
      requires Valid()
      modifies this
      ensures Valid() && Repr == old(Repr)
      ensures var t := AfterStop(old(Model())); Model() == t.next && events == t.events
    {
      if !recording {
        return [];
      }
      recording := false;
      capturing := false;
      events := [];
      if !IsBlank(currentText) {
        events := [OnResult(RecognitionResult(currentText, false, true))];
      }
      state := Ready;
      events := events + [OnStateChanged(Ready)];
    }

    /** `while (isReady()) decode()`, interrupted by an exception once `fault.value` decode
        steps have completed when `fault` is given. */
    method DecodeAvailable(fault: Option<nat>)
      requires engine != null
      modifies engine
      ensures engine.State() == DecodeLoop(old(engine.State()), fault)
    {
      var steps: nat := 0;
      while engine.IsReady() && (fault.None? || steps < fault.value)
        invariant fault.None? ==> Drain(engine.State()) == Drain(old(engine.State()))
        invariant fault.Some? ==> (steps <= fault.value &&
                    DrainAtMost(engine.State(), fault.value - steps) == DrainAtMost(old(engine.State()), fault.value))
        decreases engine.pending
      {
        engine.Decode();
        steps := steps + 1;
      }
    }

    /** One iteration of the capture loop. */
    method ProcessFrame(f: Frame) returns (events: seq<Event>)
      requires Valid()
      modifies Repr
      ensures Valid() && Repr == old(Repr)
      ensures var t := AfterFrame(old(Model()), f); Model() == t.next && events == t.events
    {
      events := [];
      if !(recording && capturing) {
        return;
      }
      if f.readThrows {
        capturing := false;
        return;
      }
      frameCount := frameCount + 1;
      if f.ret > 0 {
        if frameCount % PLACEHOLDER_PERIOD == 0 {
          events := [OnResult(PlaceholderResult)];
        }
        if f.acceptThrows || engine == null {
          return;
        }
        assert Model() == old(Model()).(frameCount := frameCount);
        events := FeedEngine(f, events);
      }
    }

    /** Feeding the read block to the engine, the decode loop and the result step. */
    method FeedEngine(f: Frame, sent: seq<Event>) returns (events: seq<Event>)
      requires Valid() && engine != null
      modifies Repr
      ensures Valid() && Repr == old(Repr)
      ensures var t := AfterFeed(old(Model()), f, sent); Model() == t.next && events == t.events
    {
      engine.AcceptSamples(f.produced);
      DecodeAvailable(f.decodeFault);
      if f.queryThrows {
        events := sent;
      } else {
        events := QueryResult(sent, f.resetThrows);
      }
    }

    /** The result step of one iteration, after the callbacks `sent`. */
    method QueryResult(sent: seq<Event>, resetThrows: bool) returns (events: seq<Event>)
      requires Valid() && engine != null
      modifies Repr
      ensures Valid() && Repr == old(Repr)
      ensures var t := AfterQuery(old(Model()), sent, resetThrows); Model() == t.next && events == t.events
    {
      events := sent;
      var isEndpoint := engine.IsEndpoint();
      var text := engine.Text();
      if !IsBlank(text) && text != currentText {
        currentText := text;
        events := events + [OnResult(RecognitionResult(text, !isEndpoint, isEndpoint))];
        if isEndpoint {
          lastRecognizedText := text;
          if !resetThrows {
            engine.Reset(false);
          }
        }
      }
    }

    /** processAudioSamples: the loop `while (isRecording)` over the reads `frames`; it also
        ends early when a read throws. */
    method ProcessAudioSamples(frames: seq<Frame>) returns (events: seq<Event>)
      requires Valid()
      modifies Repr
      ensures Valid() && Repr == old(Repr)
      ensures var t := AfterFrames(old(Model()), frames); Model() == t.next && events == t.events
    {
      events := [];
      assert frames[0..] == frames;
      var i := 0;
      while i < |frames| && recording && capturing
        invariant 0 <= i <= |frames|
        invariant Valid() && Repr == old(Repr)
        invariant var rest := AfterFrames(Model(), frames[i..]);
          AfterFrames(old(Model()), frames) == Transition(rest.next, events + rest.events)
      {
        ghost var before := Model();
        var more := ProcessFrame(frames[i]);
        ghost var rest := AfterFrames(Model(), frames[i + 1..]);
        assert AfterFrames(before, frames[i..]) == Transition(rest.next, more + rest.events) by {
          assert frames[i..][0] == frames[i] && frames[i..][1..] == frames[i + 1..];
        }
        assert events + more + rest.events == events + (more + rest.events);
        events := events + more;
        i := i + 1;
      }
      if i < |frames| {
        IdleFrames(Model(), frames[i..]);
      }
    }

    method Destroy() returns (events: seq<Event>)
      requires Valid()
      modifies this
      ensures Valid() && fresh(Repr - old(Repr))
      ensures var t := AfterDestroy(old(Model())); Model() == t.next && events == t.events
    {
      events := StopRecognition();
      engine := null;
      Repr := {this};
      state := Destroyed;
    }
  }
}
