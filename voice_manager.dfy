/**
  VoiceRecognitionManager: the object the keyboard talks to. It owns at most one
  SherpaVoiceRecognizer, whose listener it is: results go to handleRecognitionResult
  (the streaming commit protocol) and errors clear the initialized flag.

  The Android environment the manager consults becomes parameters: the permission check,
  the two voice preferences, the running ImeService and its current input connection.
*/
module VoiceManager {
  import opened Base
  import opened VoiceTypes
  import opened TextCleanup
  import opened Decoding
  import opened SherpaRecognizer
  import opened Editor
  import opened Streaming

  /** The abstract state of the manager: _isInitialized, _isRecording, isInitializing,
      isStreaming with lastCommittedText, and the recognizer it holds. */
  datatype ManagerState = ManagerState(
    initialized: bool,
    recording: bool,
    initializing: bool,
    stream: StreamState,
    recognizer: Option<Snapshot>)

  /** The manager when the keyboard service starts. */
  const Unstarted: ManagerState := ManagerState(false, false, false, NotStreaming, None)

  /** The state after a call, and whether it returned true. */
  datatype Verdict = Verdict(next: ManagerState, ok: bool)

  /** The state after a call that can reach the editor, and the new text before the cursor. */
  datatype Delivered = Delivered(next: ManagerState, text: string)

  /** Whether a recognizer reported an error to its listener. */
  predicate ErrorReported(events: seq<Event>) {
    exists i | 0 <= i < |events| :: events[i].OnError?
  }

  // -----------------------------------------------------------------------------------
  // the listener

  /** The listener registered in initialize, for one callback. */
  function Listen(m: ManagerState, e: Event, host: Host, buf: string): (d: Delivered)
    ensures d.next == m.(stream := d.next.stream, initialized := d.next.initialized)
    ensures d.next.initialized == (m.initialized && !e.OnError?)
    ensures !e.OnResult? ==> d.next.stream == m.stream && d.text == buf
  {
    match e
    case OnResult(r) =>
      var o := HandleResult(m.stream, r, host, buf);
      Delivered(m.(stream := o.stream), o.text)
    case OnError(_) => Delivered(m.(initialized := false), buf)
    case OnStateChanged(_) => Delivered(m, buf)
  }

  /** The listener applied to the callbacks in order. */
  function Deliver(m: ManagerState, events: seq<Event>, host: Host, buf: string): (d: Delivered)
    ensures d.next.recording == m.recording && d.next.initializing == m.initializing
    ensures d.next.recognizer == m.recognizer
    ensures d.next.initialized == (m.initialized && !ErrorReported(events))
    decreases |events|
  {
    if events == [] then Delivered(m, buf)
    else
      var first := Listen(m, events[0], host, buf);
      var rest := Deliver(first.next, events[1..], host, first.text);
      assert ErrorReported(events) <==> events[0].OnError? || ErrorReported(events[1..]) by {
        if ErrorReported(events[1..]) {
          var i :| 0 <= i < |events[1..]| && events[1..][i].OnError?;
          assert events[i + 1].OnError?;
        }
      }
      rest
  }

  /** The listener never looks at the recognizer. */
  lemma {:induction false} DeliverIgnoresRecognizer(m: ManagerState, events: seq<Event>, host: Host, buf: string,
                                                    r: Option<Snapshot>)
    ensures var d := Deliver(m, events, host, buf);
      Deliver(m.(recognizer := r), events, host, buf) == Delivered(d.next.(recognizer := r), d.text)
    decreases |events|
  {
    if events != [] {
      var first := Listen(m, events[0], host, buf);
      DeliverIgnoresRecognizer(first.next, events[1..], host, first.text, r);
    }
  }

  // -----------------------------------------------------------------------------------
  // the operations

  /** initialize(). A new recognizer is created each time the manager is not initialized;
      it replaces the held one only if its own initialization succeeds. */
  function ManagerAfterInitialize(m: ManagerState, hasPermissions: bool, nativeLoaded: bool,
                                  outcome: CreateOutcome, script: seq<Hypothesis>): (v: Verdict)
    ensures m.initialized ==> v == Verdict(m, true)
    ensures !m.initialized && (m.initializing || !hasPermissions) ==> v == Verdict(m, false)
    ensures !m.initialized && !m.initializing && hasPermissions ==>
              && v.ok == (nativeLoaded && outcome == EngineCreated)
              && v.next.initialized == v.ok
              && !v.next.initializing
              && (v.ok ==> v.next.recognizer == Some(AfterInitialize(Constructed, nativeLoaded, outcome, script).next)
                           && v.next.recognizer.value.state == Ready)
              && (!v.ok ==> v.next == m)
    // a success keeps the new READY recognizer and changes nothing else
    ensures !m.initialized && !m.initializing && hasPermissions && v.ok ==>
              v.next == m.(recognizer := Some(AfterInitialize(Constructed, nativeLoaded, outcome, script).next),
                           initialized := true)
  {
    if m.initialized then Verdict(m, true)
    else if m.initializing then Verdict(m, false)
    else if !hasPermissions then Verdict(m, false)
    else
      var a := AfterInitialize(Constructed, nativeLoaded, outcome, script);
      if a.ok then Verdict(m.(recognizer := Some(a.next), initialized := true), true)
      else Verdict(m.(initialized := false), false)
  }

  /** startRecognition(); `micOk` and `resetThrows` are passed to the recognizer's start. */
  function ManagerAfterStart(m: ManagerState, voiceEnabled: bool, micOk: bool, resetThrows: bool): (v: Verdict)
    ensures !voiceEnabled || m.recognizer.None? ==> v == Verdict(m, false)
    ensures voiceEnabled && m.recognizer.Some? && m.recording ==> v == Verdict(m, true)
    ensures voiceEnabled && m.recognizer.Some? && !m.recording ==>
              && v.ok == (m.recognizer.value.state == Ready && micOk)
              && v.next.recognizer.Some?
              && (v.ok ==> && v.next.recording && v.next.stream == NotStreaming
                           && v.next.initialized == m.initialized
                           && v.next.recognizer.value.state == Recording)
              && (!v.ok ==> !v.next.recording && v.next.stream == m.stream)
              && (m.recognizer.value.state == Ready && !micOk ==>
                    !v.next.initialized && v.next.recognizer.value.state == Error)
    // a recognizer that is not READY refuses to start, and nothing changes
    ensures voiceEnabled && m.recognizer.Some? && !m.recording && m.recognizer.value.state != Ready ==>
              v == Verdict(m, false)
    // otherwise the recognizer takes its start, its error callback clears initialized, and a
    // success starts recording with streaming reset; initializing is never touched
    ensures voiceEnabled && m.recognizer.Some? && !m.recording ==>
              var a := AfterStart(m.recognizer.value, micOk, resetThrows);
              v.next == m.(recognizer := Some(a.next), initialized := m.initialized && !ErrorReported(a.events),
                           recording := a.ok, stream := if a.ok then NotStreaming else m.stream)
  {
    if !voiceEnabled then Verdict(m, false)
    else if m.recognizer.None? then Verdict(m, false)
    else if m.recording then Verdict(m, true)
    else
      var a := AfterStart(m.recognizer.value, micOk, resetThrows);
      assert m.recognizer.value.state == Ready && !micOk ==> a.events[0].OnError?;
      var m1 := m.(recognizer := Some(a.next), initialized := m.initialized && !ErrorReported(a.events));
      if a.ok then Verdict(m1.(stream := NotStreaming, recording := true), true)
      else Verdict(m1, false)
  }

  /** stopRecognition(): the recognizer's callbacks, among them its final result, are handled
      before the manager clears its recording flag. */
  function ManagerAfterStop(m: ManagerState, host: Host, buf: string): (d: Delivered)
    ensures !m.recording ==> d == Delivered(m, buf)
    ensures m.recording ==> !d.next.recording
    ensures m.recording && m.recognizer.None? ==> d == Delivered(m.(recording := false), buf)
    // the recognizer stops, the listener handles its callbacks, then recording is cleared
    ensures m.recording && m.recognizer.Some? ==>
              var t := AfterStop(m.recognizer.value);
              var h := Deliver(m.(recognizer := Some(t.next)), t.events, host, buf);
              d == Delivered(h.next.(recording := false), h.text)
  {
    if !m.recording then Delivered(m, buf)
    else if m.recognizer.None? then Delivered(m.(recording := false), buf)
    else
      var t := AfterStop(m.recognizer.value);
      var d := Deliver(m.(recognizer := Some(t.next)), t.events, host, buf);
      Delivered(d.next.(recording := false), d.text)
  }

  /** The capture thread of the held recognizer running over `frames`, its callbacks handled
      as they are made. */
  function ManagerAfterCapture(m: ManagerState, frames: seq<Frame>, host: Host, buf: string): (d: Delivered)
    ensures m.recognizer.None? ==> d == Delivered(m, buf)
    ensures d.next.recording == m.recording
    // the listener handles the callbacks of the capture run, in order
    ensures m.recognizer.Some? ==>
              var t := AfterFrames(m.recognizer.value, frames);
              d == Deliver(m.(recognizer := Some(t.next)), t.events, host, buf)
  {
    if m.recognizer.None? then Delivered(m, buf)
    else
      var t := AfterFrames(m.recognizer.value, frames);
      Deliver(m.(recognizer := Some(t.next)), t.events, host, buf)
  }

  /** A capture run reports no error, so it keeps the manager's flags, and it leaves the
      recognizer's lifecycle state as it was. */
  lemma CaptureKeepsFlags(m: ManagerState, frames: seq<Frame>, host: Host, buf: string)
    requires m.recognizer.Some?
    ensures var d := ManagerAfterCapture(m, frames, host, buf);
      && d.next.initialized == m.initialized && d.next.recording == m.recording
      && d.next.initializing == m.initializing
      && d.next.recognizer.Some? && d.next.recognizer.value.state == m.recognizer.value.state
  {
    var t := AfterFrames(m.recognizer.value, frames);
    CaptureRunResults(m.recognizer.value, frames);
    assert !ErrorReported(t.events) by {
      forall i | 0 <= i < |t.events| ensures !t.events[i].OnError? {
        assert t.events[i] in t.events;
      }
    }
  }

  /** getCurrentState(). */
  function CurrentState(m: ManagerState): (s: RecognitionState)
    ensures s == Idle || s == Ready || s == Recording
    ensures s == Recording <==> m.recognizer.Some? && m.initialized && m.recording
    ensures s == Ready <==> m.recognizer.Some? && m.initialized && !m.recording
  {
    match m.recognizer
    case None => Idle
    case Some(_) => if !m.initialized then Idle else if m.recording then Recording else Ready
  }

  // -----------------------------------------------------------------------------------
  // the class

  class VoiceRecognitionManager {
    var recognizer: SherpaVoiceRecognizer?
    var lastCommittedText: string
    var isStreaming: bool
    var initialized: bool
    var recording: bool
    var initializing: bool
    ghost var Repr: set<object>

    ghost predicate Valid()
      reads this, Repr
    {
      && this in Repr
      && (recognizer != null ==>
            && recognizer in Repr && recognizer.Repr <= Repr && this !in recognizer.Repr
            && recognizer.Valid())
    }

    /** The abstract state of the object. */
    ghost function Model(): ManagerState
      reads this, recognizer, if recognizer != null then recognizer.engine else null
    {
      ManagerState(initialized, recording, initializing, StreamState(isStreaming, lastCommittedText),
                   if recognizer == null then None else Some(recognizer.Model()))
    }

    constructor ()
      ensures Valid() && fresh(Repr) && Model() == Unstarted
    {
      recognizer := null;
      lastCommittedText := "";
      isStreaming := false;
      initialized, recording, initializing := false, false, false;
      Repr := {this};
    }

    method Initialize(hasPermissions: bool, nativeLoaded: bool, outcome: CreateOutcome, script: seq<Hypothesis>)
      returns (ok: bool)
      requires Valid()
      modifies this
      ensures Valid() && fresh(Repr - old(Repr))
      ensures var v := ManagerAfterInitialize(old(Model()), hasPermissions, nativeLoaded, outcome, script);
        Model() == v.next && ok == v.ok
    {
      if initialized {
        return true;
      }
      if initializing {
        return false;
      }
      if !hasPermissions {
        return false;
      }
      ghost var m := Model();
      initializing := true;
      var created := new SherpaVoiceRecognizer();
      var success, events := created.Initialize(nativeLoaded, outcome, script);
      ghost var a := AfterInitialize(Constructed, nativeLoaded, outcome, script);
      assert created.Model() == a.next && success == a.ok;
      if ErrorReported(events) {
        initialized := false;
      }
      if success {
        recognizer := created;
        Repr := Repr + created.Repr;
        initialized := true;
        ok := true;
        initializing := false;
        assert Model() == m.(recognizer := Some(a.next), initialized := true);
      } else {
        initialized := false;
        ok := false;
        initializing := false;
        assert Model() == m;
      }
    }

    method StartRecognition(voiceEnabled: bool, micOk: bool, resetThrows: bool) returns (ok: bool)
      requires Valid()
      modifies Repr
      ensures Valid() && Repr == old(Repr)
      ensures var v := ManagerAfterStart(old(Model()), voiceEnabled, micOk, resetThrows);
        Model() == v.next && ok == v.ok
    {
      if !voiceEnabled {
        return false;
      }
      if recognizer == null {
        return false;
      }
      if recording {
        return true;
      }
      var success, events := recognizer.StartRecognition(micOk, resetThrows);
      if ErrorReported(events) {
        initialized := false;
      }
      if success {
        isStreaming := false;
        lastCommittedText := "";
        recording := true;
      }
      ok := success;
    }

    /** Deletes, one character at a time, what the window grew by since the snapshot. */
    method DeleteStreamed(ic: InputConnection)
      modifies ic
      ensures ic.text == DeleteBefore(old(ic.text), DeleteCount(lastCommittedText, old(ic.text)))
    {
      var window := ic.GetTextBeforeCursor(WINDOW);
      if |window| > |lastCommittedText| {
        var charsToDelete := |window| - |lastCommittedText|;
        for i := 0 to charsToDelete
          invariant ic.text == DeleteBefore(old(ic.text), i)
        {
          ic.DeleteCharBeforeCursor();
          DeleteOneMore(old(ic.text), i);
        }
      }
    }

    /** handleRecognitionResult(result); `ic` is the service's current input connection. */
    method HandleRecognitionResult(r: RecognitionResult, hasService: bool, autoCommit: bool, ic: InputConnection?)
      modifies this, ic
      ensures recognizer == old(recognizer) && Repr == old(Repr) && initialized == old(initialized)
      ensures recording == old(recording) && initializing == old(initializing)
      ensures var o := HandleResult(old(StreamState(isStreaming, lastCommittedText)), r,
                                    Host(hasService, ic != null, autoCommit), if ic != null then old(ic.text) else "");
        && StreamState(isStreaming, lastCommittedText) == o.stream
        && (ic != null ==> ic.text == o.text)
    {
      if hasService && !IsBlank(r.text) {
        if r.isPartial {
          if ic != null {
            StreamPartial(r.text, ic);
          }
        } else if r.isEndpoint {
          CommitFinal(r.text, autoCommit, ic);
        }
      }
    }

    /** The partial branch, with an input connection. */
    method StreamPartial(t: string, ic: InputConnection)
      modifies this, ic
      ensures recognizer == old(recognizer) && Repr == old(Repr) && initialized == old(initialized)
      ensures recording == old(recording) && initializing == old(initializing)
      ensures isStreaming
      ensures lastCommittedText == if old(isStreaming) then old(lastCommittedText) else TextBeforeCursor(old(ic.text), WINDOW)
      ensures ic.text == Replace(lastCommittedText, old(ic.text), t)
    {
      if !isStreaming {
        isStreaming := true;
        lastCommittedText := ic.GetTextBeforeCursor(WINDOW);
      }
      DeleteStreamed(ic);
      ic.CommitText(t);
    }

    /** The final-result branch. */
    method CommitFinal(t: string, autoCommit: bool, ic: InputConnection?)
      modifies this, ic
      ensures recognizer == old(recognizer) && Repr == old(Repr) && initialized == old(initialized)
      ensures recording == old(recording) && initializing == old(initializing)
      ensures old(isStreaming) ==> && !isStreaming && lastCommittedText == ""
                                   && (ic != null ==> ic.text == Replace(old(lastCommittedText), old(ic.text), ProcessRecognizedText(t)))
      ensures !old(isStreaming) ==> && isStreaming == old(isStreaming) && lastCommittedText == old(lastCommittedText)
                                    && (ic != null ==> ic.text == old(ic.text) + (if autoCommit then ProcessRecognizedText(t) else ""))
    {
      if isStreaming {
        if ic != null {
          DeleteStreamed(ic);
          ic.CommitText(ProcessRecognizedText(t));
        }
        isStreaming := false;
        lastCommittedText := "";
      } else if autoCommit {
        var textToCommit := ProcessRecognizedText(t);
        if ic != null {
          ic.CommitText(textToCommit);
        }
      }
    }

    /** The manager's own fields, with no recognizer. */
    ghost function Local(): ManagerState
      reads this
    {
      ManagerState(initialized, recording, initializing, StreamState(isStreaming, lastCommittedText), None)
    }

    /** The listener: each callback made by the recognizer, in order. */
    method Dispatch(events: seq<Event>, hasService: bool, autoCommit: bool, ic: InputConnection?)
      modifies this, ic
      ensures recognizer == old(recognizer) && Repr == old(Repr)
      ensures var d := Deliver(old(Local()), events, Host(hasService, ic != null, autoCommit),
                               if ic != null then old(ic.text) else "");
        Local() == d.next && (ic != null ==> ic.text == d.text)
    {
      ghost var host := Host(hasService, ic != null, autoCommit);
      assert events[0..] == events;
      for i := 0 to |events|
        invariant recognizer == old(recognizer) && Repr == old(Repr)
        invariant Deliver(old(Local()), events, host, if ic != null then old(ic.text) else "")
                  == Deliver(Local(), events[i..], host, if ic != null then ic.text else "")
      {
        assert events[i..][1..] == events[i + 1..];
        match events[i]
        case OnResult(r) => HandleRecognitionResult(r, hasService, autoCommit, ic);
        case OnError(_) => initialized := false;
        case OnStateChanged(_) =>
      }
    }

    method StopRecognition(hasService: bool, autoCommit: bool, ic: InputConnection?)
      requires Valid()
      modifies Repr, ic
      ensures Valid() && Repr == old(Repr)
      ensures var d := ManagerAfterStop(old(Model()), Host(hasService, ic != null, autoCommit),
                                        if ic != null then old(ic.text) else "");
        Model() == d.next && (ic != null ==> ic.text == d.text)
    {
      if !recording {
        return;
      }
      if recognizer != null {
        var events := recognizer.StopRecognition();
        ghost var host := Host(hasService, ic != null, autoCommit);
        ghost var buf := if ic != null then ic.text else "";
        DeliverIgnoresRecognizer(Local(), events, host, buf, Some(recognizer.Model()));
        Dispatch(events, hasService, autoCommit, ic);
      }
      recording := false;
    }

    /** The held recognizer's capture thread over the reads `frames`, with its callbacks. */
    method CaptureAudio(frames: seq<Frame>, hasService: bool, autoCommit: bool, ic: InputConnection?)
      requires Valid()
      modifies Repr, ic
      ensures Valid() && Repr == old(Repr)
      ensures var d := ManagerAfterCapture(old(Model()), frames, Host(hasService, ic != null, autoCommit),
                                           if ic != null then old(ic.text) else "");
        Model() == d.next && (ic != null ==> ic.text == d.text)
    {
      if recognizer != null {
        var events := recognizer.ProcessAudioSamples(frames);
        ghost var host := Host(hasService, ic != null, autoCommit);
        ghost var buf := if ic != null then ic.text else "";
        DeliverIgnoresRecognizer(Local(), events, host, buf, Some(recognizer.Model()));
        Dispatch(events, hasService, autoCommit, ic);
      }
    }

    /** getCurrentState(). */
    function GetCurrentState(): (s: RecognitionState)
      reads this, recognizer, if recognizer != null then recognizer.engine else null
      ensures s == CurrentState(Model())
    {
      if recognizer == null then Idle
      else if !initialized then Idle
      else if recording then Recording
      else Ready
    }
  }
}

/** Scenarios over whole sessions of the manager. */
module VoiceSessions {
  import opened Base
  import opened VoiceTypes
  import opened TextCleanup
  import opened Decoding
  import opened SherpaRecognizer
  import opened Editor
  import opened Streaming
  import opened VoiceManager

  /** A host where results reach the editor and finals are committed. */
  const Editing: Host := Host(true, true, true)

  /** A microphone failure on start reports an error: the manager counts as uninitialized,
      its recognizer is left in ERROR and refuses to start again, and only a new
      initialize (which creates a new recognizer) makes starting possible. */
  lemma MicFailureNeedsReinitialize(m: ManagerState, script: seq<Hypothesis>)
    requires m.recognizer.Some? && m.recognizer.value.state == Ready && !m.recording && !m.initializing
    ensures var failed := ManagerAfterStart(m, true, false, false);
      && !failed.ok
      && CurrentState(failed.next) == Idle
      && !ManagerAfterStart(failed.next, true, true, false).ok
      && var again := ManagerAfterInitialize(failed.next, true, true, EngineCreated, script);
         again.ok && ManagerAfterStart(again.next, true, true, false).ok
  {
  }

  /** Stopping after partial results only: the recognizer's last text is sent as a final
      result and replaces the streamed partial with its cleaned form. */
  lemma StopReplacesStreamedText(m: ManagerState, base: string)
    requires m.recording && m.recognizer.Some? && m.recognizer.value.recording
    requires !IsBlank(m.recognizer.value.currentText)
    requires m.stream == StreamState(true, base)
    requires |base + m.recognizer.value.currentText| <= WINDOW
    ensures var d := ManagerAfterStop(m, Editing, base + m.recognizer.value.currentText);
      && d.text == base + ProcessRecognizedText(m.recognizer.value.currentText)
      && d.next.stream == NotStreaming
      && !d.next.recording
      && d.next.recognizer.value.state == Ready
  {
    var c := m.recognizer.value.currentText;
    StopSendsFinal(m.recognizer.value);
    var t := AfterStop(m.recognizer.value);
    DeliverStreamedFinal(m.(recognizer := Some(t.next)), base, c);
  }

  /** A stop of a recording recognizer with a non-blank text sends it as a final result. */
  lemma StopSendsFinal(r: Snapshot)
    requires r.recording && !IsBlank(r.currentText)
    ensures AfterStop(r) == Transition(r.(recording := false, capturing := false, state := Ready),
                                       [OnResult(RecognitionResult(r.currentText, false, true)), OnStateChanged(Ready)])
  {
  }

  /** The listener handles a final result and the READY callback while streaming c after base. */
  lemma DeliverStreamedFinal(m: ManagerState, base: string, c: string)
    requires m.stream == StreamState(true, base) && !IsBlank(c) && |base + c| <= WINDOW
    ensures Deliver(m, [OnResult(RecognitionResult(c, false, true)), OnStateChanged(Ready)], Editing, base + c)
            == Delivered(m.(stream := NotStreaming), base + ProcessRecognizedText(c))
  {
    DeliverThenReady(m, OnResult(RecognitionResult(c, false, true)), Editing, base + c);
    FinalReplacesPartial(base, c, c, Editing);
  }

  /** One callback followed by the state change to Ready acts as that callback alone. */
  lemma DeliverThenReady(m: ManagerState, e: Event, host: Host, buf: string)
    ensures Deliver(m, [e, OnStateChanged(Ready)], host, buf) == Listen(m, e, host, buf)
  {
    DeliverTwo(m, e, OnStateChanged(Ready), host, buf);
  }

  /** Two callbacks are delivered one after the other. */
  lemma DeliverTwo(m: ManagerState, e1: Event, e2: Event, host: Host, buf: string)
    ensures var l := Listen(m, e1, host, buf);
      Deliver(m, [e1, e2], host, buf) == Listen(l.next, e2, host, l.text)
  {
    var events := [e1, e2];
    var l := Listen(m, e1, host, buf);
    var l2 := Listen(l.next, e2, host, l.text);
    assert Deliver(m, events, host, buf) == Deliver(l.next, events[1..], host, l.text);
    assert Deliver(l.next, events[1..], host, l.text) == Deliver(l2.next, events[2..], host, l2.text);
    assert events[2..] == [];
  }

  /** A single state-change callback changes nothing. */
  lemma DeliverStatusOnly(m: ManagerState, events: seq<Event>, host: Host, buf: string)
    requires events == [OnStateChanged(Ready)]
    ensures Deliver(m, events, host, buf) == Delivered(m, buf)
  {
    assert events[1..] == [];
  }

  /** Starting and stopping without a recognized word leaves the editor as it was. */
  lemma SilentSessionCommitsNothing(m: ManagerState, buf: string)
    requires m.recognizer.Some? && m.recognizer.value.state == Ready && !m.recording
    ensures var started := ManagerAfterStart(m, true, true, false);
      started.ok && ManagerAfterStop(started.next, Editing, buf).text == buf
  {
    var started := ManagerAfterStart(m, true, true, false);
    var t := AfterStop(started.next.recognizer.value);
    assert t.events == [OnStateChanged(Ready)];
    DeliverStatusOnly(started.next.(recognizer := Some(t.next)), t.events, Editing, buf);
  }

  /** The engine of the session below: it decodes "hel", then "hello" with an endpoint. */
  const HelloScript: seq<Hypothesis> := [Hypothesis("hel", false), Hypothesis("hello", true)]

  /** A read of 320 samples that completes one decodable frame, with nothing throwing. */
  const OneFrame: Frame := Frame(false, 320, 1, false, None, false, false)

  /** A recognizer that has just started recording on an engine that will decode `script`. */
  function JustStarted(script: seq<Hypothesis>): Snapshot {
    Snapshot(Recording, true, true, "", "", 0, Some(DecoderState(0, "", false, script)))
  }

  /** The recognizer of the session after its first read. */
  function AfterHel(): Snapshot {
    Snapshot(Recording, true, true, "hel", "", 1, Some(DecoderState(0, "hel", false, [Hypothesis("hello", true)])))
  }

  /** The recognizer of the session after its second read. */
  function AfterHello(): Snapshot {
    Snapshot(Recording, true, true, "hello", "hello", 2, Some(DecoderState(0, "", false, [])))
  }

  /** The first read decodes "hel" and sends it as a partial result. */
  lemma HelFrame()
    ensures AfterFrame(JustStarted(HelloScript), OneFrame)
            == Transition(AfterHel(), [OnResult(RecognitionResult("hel", true, false))])
  {
    assert Drain(DecoderState(1, "", false, HelloScript)) == DecoderState(0, "hel", false, [Hypothesis("hello", true)]);
    assert !IsBlank("hel") by { assert !IsWhitespace("hel"[0]); }
  }

  /** The second read decodes "hello" with an endpoint and sends it as a final result. */
  lemma HelloFrame()
    ensures AfterFrame(AfterHel(), OneFrame)
            == Transition(AfterHello(), [OnResult(RecognitionResult("hello", false, true))])
  {
    assert Drain(DecoderState(1, "hel", false, [Hypothesis("hello", true)])) == DecoderState(0, "hello", true, []);
    assert !IsBlank("hello") by { assert !IsWhitespace("hello"[0]); }
  }

  /** The capture run of the session: a partial "hel", then the endpoint result "hello". */
  lemma HelloCapture()
    ensures AfterFrames(JustStarted(HelloScript), [OneFrame, OneFrame])
            == Transition(AfterHello(),
                 [OnResult(RecognitionResult("hel", true, false)), OnResult(RecognitionResult("hello", false, true))])
  {
    var hel := [OnResult(RecognitionResult("hel", true, false))];
    var hello := [OnResult(RecognitionResult("hello", false, true))];
    assert hel + hello == [OnResult(RecognitionResult("hel", true, false)), OnResult(RecognitionResult("hello", false, true))];
    HelFrame();
    HelloFrame();
    TwoKnownReads(JustStarted(HelloScript), OneFrame, OneFrame, Transition(AfterHel(), hel), Transition(AfterHello(), hello));
  }

  /** "hello" needs no cleaning. */
  lemma HelloIsClean()
    ensures ProcessRecognizedText("hello") == "hello"
  {
    var s := "hello";
    assert CollapseSpaces(s) == s by {
      assert !IsRegexSpace(s[0]) && !IsRegexSpace(s[1]) && !IsRegexSpace(s[2]) && !IsRegexSpace(s[3]) && !IsRegexSpace(s[4]);
      assert SpacesCollapsed(s);
      CollapseFixesCollapsed(s);
    }
    ProcessTrimmed(s);
  }

  /** A manager recording with the recognizer of the session below. */
  const HelloSession: ManagerState := ManagerState(true, true, false, NotStreaming, Some(JustStarted(HelloScript)))

  /** A final result that ended an utterance is sent again by stopRecognition, because the
      recognizer keeps it as its current text; when the stream has already been closed by the
      first one, the second is committed as well, so the editor receives the text twice. */
  lemma EndpointThenStopCommitsTwice(base: string)
    requires |base| + 5 <= WINDOW
    ensures var captured := ManagerAfterCapture(HelloSession, [OneFrame, OneFrame], Editing, base);
      && captured.text == base + "hello"
      && captured.next.stream == NotStreaming
      && ManagerAfterStop(captured.next, Editing, captured.text).text == base + "hello" + "hello"
  {
    HelloCapture();
    HelloIsClean();
    var t := AfterFrames(JustStarted(HelloScript), [OneFrame, OneFrame]);
    var m1 := HelloSession.(recognizer := Some(t.next));
    DeliverHello(m1, base);
    var captured := ManagerAfterCapture(HelloSession, [OneFrame, OneFrame], Editing, base);
    assert captured == Delivered(m1, base + "hello");
    StopSendsFinal(t.next);
    var stopped := AfterStop(t.next);
    DeliverUnstreamedFinal(m1.(recognizer := Some(stopped.next)), base + "hello", "hello");
  }

  /** The listener on the capture run: the partial is streamed, the final replaces it. */
  lemma DeliverHello(m: ManagerState, base: string)
    requires m.stream == NotStreaming && |base| + 5 <= WINDOW
    ensures Deliver(m, [OnResult(RecognitionResult("hel", true, false)), OnResult(RecognitionResult("hello", false, true))], Editing, base)
            == Delivered(m, base + "hello")
  {
    var r1 := RecognitionResult("hel", true, false);
    var r2 := RecognitionResult("hello", false, true);
    var m1 := m.(stream := StreamState(true, base));
    assert HandleResult(NotStreaming, r1, Editing, base) == Outcome(StreamState(true, base), base + "hel") by {
      assert !IsBlank("hel") by { assert !IsWhitespace("hel"[0]); }
      FirstPartialAppends(base, "hel", Editing);
    }
    assert Listen(m, OnResult(r1), Editing, base) == Delivered(m1, base + "hel");
    assert Listen(m1, OnResult(r2), Editing, base + "hel") == Delivered(m, base + "hello") by {
      assert !IsBlank("hello") by { assert !IsWhitespace("hello"[0]); }
      HelloIsClean();
      FinalReplacesPartial(base, "hel", "hello", Editing);
    }
    DeliverTwo(m, OnResult(r1), OnResult(r2), Editing, base);
  }

  /** The listener on a final result when not streaming, then READY: the cleaned text is appended. */
  lemma DeliverUnstreamedFinal(m: ManagerState, buf: string, c: string)
    requires m.stream == NotStreaming && !IsBlank(c)
    ensures Deliver(m, [OnResult(RecognitionResult(c, false, true)), OnStateChanged(Ready)], Editing, buf)
            == Delivered(m, buf + ProcessRecognizedText(c))
  {
    DeliverThenReady(m, OnResult(RecognitionResult(c, false, true)), Editing, buf);
  }
}
