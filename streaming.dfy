/**
  The streaming commit protocol of VoiceRecognitionManager.handleRecognitionResult: how a
  recognition result changes the manager's streaming state (isStreaming and
  lastCommittedText, the snapshot of the text before the cursor taken at the first partial)
  and the editor's text before the cursor.

  A partial result replaces the text committed for the previous partial: it deletes the
  characters by which the 1000-character window grew since the snapshot, then commits
  the new text. A final result does the same with the cleaned text and leaves streaming.
*/
module Streaming {
  import opened Base
  import opened VoiceTypes
  import opened TextCleanup
  import opened Editor

  /** isStreaming and lastCommittedText. */
  datatype StreamState = StreamState(streaming: bool, lastCommittedText: string)

  /** The state after startRecognition succeeds and after a streamed final. */
  const NotStreaming: StreamState := StreamState(false, "")

  /** What handleRecognitionResult reads from outside: the running ImeService, its current
      input connection, and the auto-commit preference. */
  datatype Host = Host(hasService: bool, connected: bool, autoCommit: bool)

  /** The new streaming state and the new text before the cursor. */
  datatype Outcome = Outcome(stream: StreamState, text: string)

  /** The characters deleted before a commit: how much the window grew past the snapshot. */
  function DeleteCount(snapshot: string, buf: string): (k: nat)
    ensures k == if |snapshot| < Min(WINDOW, |buf|) then Min(WINDOW, |buf|) - |snapshot| else 0
  {
    var window := TextBeforeCursor(buf, WINDOW);
    if |window| > |snapshot| then |window| - |snapshot| else 0
  }

  /** Delete what was streamed since the snapshot, then commit t. */
  function Replace(snapshot: string, buf: string, t: string): (r: string)
    ensures r == buf[..|buf| - DeleteCount(snapshot, buf)] + t
  {
    DeleteBefore(buf, DeleteCount(snapshot, buf)) + t
  }

  /** handleRecognitionResult. */
  function HandleResult(s: StreamState, r: RecognitionResult, host: Host, buf: string): (o: Outcome)
    // no service or a blank text: nothing happens
    ensures !host.hasService || IsBlank(r.text) ==> o == Outcome(s, buf)
    // without an input connection the editor is never touched
    ensures !host.connected ==> o.text == buf
    // a partial result: the first one snapshots the window; each one replaces what was streamed
    ensures host.hasService && !IsBlank(r.text) && r.isPartial && host.connected ==>
              && o.stream.streaming
              && o.stream == (if s.streaming then s else StreamState(true, TextBeforeCursor(buf, WINDOW)))
              && o.text == Replace(o.stream.lastCommittedText, buf, r.text)
    ensures r.isPartial && !host.connected ==> o == Outcome(s, buf)
    // a final result while streaming: replace with the cleaned text and stop streaming
    ensures host.hasService && !IsBlank(r.text) && !r.isPartial && r.isEndpoint && s.streaming ==>
              && o.stream == NotStreaming
              && o.text == (if host.connected then Replace(s.lastCommittedText, buf, ProcessRecognizedText(r.text)) else buf)
    // a final result otherwise: appended, cleaned, when auto-commit is on
    ensures host.hasService && !IsBlank(r.text) && !r.isPartial && r.isEndpoint && !s.streaming ==>
              && o.stream == s
              && o.text == buf + (if host.autoCommit && host.connected then ProcessRecognizedText(r.text) else "")
    // a result that is neither partial nor final is ignored
    ensures !r.isPartial && !r.isEndpoint ==> o == Outcome(s, buf)
  {
    if !host.hasService || IsBlank(r.text) then Outcome(s, buf)
    else if r.isPartial then
      if !host.connected then Outcome(s, buf)
      else
        var s1 := if !s.streaming then StreamState(true, TextBeforeCursor(buf, WINDOW)) else s;
        Outcome(s1, Replace(s1.lastCommittedText, buf, r.text))
    else if r.isEndpoint then
      if s.streaming then
        Outcome(NotStreaming, if host.connected then Replace(s.lastCommittedText, buf, ProcessRecognizedText(r.text)) else buf)
      else
        Outcome(s, if host.autoCommit && host.connected then buf + ProcessRecognizedText(r.text) else buf)
    else Outcome(s, buf)
  }

  /** A host that can stream: a service with an input connection. */
  predicate Streams(host: Host) {
    host.hasService && host.connected
  }

  /** A sequence of results handled in order. */
  function HandleAll(s: StreamState, rs: seq<RecognitionResult>, host: Host, buf: string): (o: Outcome)
    // without a running service no result has any effect
    ensures !host.hasService ==> o == Outcome(s, buf)
    // without an input connection the editor is never touched
    ensures !host.connected ==> o.text == buf
    decreases |rs|
  {
    if rs == [] then Outcome(s, buf)
    else
      var o := HandleResult(s, rs[0], host, buf);
      HandleAll(o.stream, rs[1..], host, o.text)
  }

  /** The first partial, in a document whose text before the cursor fits the window, is
      appended and becomes the streamed text. */
  lemma FirstPartialAppends(base: string, t: string, host: Host)
    requires Streams(host) && !IsBlank(t) && |base| <= WINDOW
    ensures HandleResult(NotStreaming, RecognitionResult(t, true, false), host, base)
            == Outcome(StreamState(true, base), base + t)
  {
    assert TextBeforeCursor(base, WINDOW) == base;
  }

  /** While streaming within the window, each partial replaces the previous one. */
  lemma PartialReplacesPartial(base: string, previous: string, r: RecognitionResult, host: Host)
    requires Streams(host) && r.isPartial && !IsBlank(r.text) && |base + previous| <= WINDOW
    ensures HandleResult(StreamState(true, base), r, host, base + previous)
            == Outcome(StreamState(true, base), base + r.text)
  {
    assert (base + previous)[..|base|] == base;
  }

  /** A final result while streaming within the window replaces the last partial with the
      cleaned final text. */
  lemma FinalReplacesPartial(base: string, previous: string, t: string, host: Host)
    requires Streams(host) && !IsBlank(t) && |base + previous| <= WINDOW
    ensures HandleResult(StreamState(true, base), RecognitionResult(t, false, true), host, base + previous)
            == Outcome(NotStreaming, base + ProcessRecognizedText(t))
  {
    assert (base + previous)[..|base|] == base;
  }

  /** A non-blank partial result that, streamed after `base`, stays within the window. */
  predicate StreamablePartial(base: string, r: RecognitionResult) {
    r.isPartial && !IsBlank(r.text) && |base + r.text| <= WINDOW
  }

  /** One step of HandleAll. */
  lemma HandleAllStep(s: StreamState, rs: seq<RecognitionResult>, host: Host, buf: string, o: Outcome)
    requires rs != [] && HandleResult(s, rs[0], host, buf) == o
    ensures HandleAll(s, rs, host, buf) == HandleAll(o.stream, rs[1..], host, o.text)
  {
  }

  /** Streaming a run of partials into a document that stays within the window leaves
      exactly the document followed by the last partial. */
  lemma {:induction false} StreamShowsLatestPartial(base: string, previous: string, rs: seq<RecognitionResult>, host: Host)
    requires Streams(host) && |base + previous| <= WINDOW
    requires forall i | 0 <= i < |rs| :: StreamablePartial(base, rs[i])
    ensures HandleAll(StreamState(true, base), rs, host, base + previous)
            == Outcome(StreamState(true, base), base + (if rs == [] then previous else rs[|rs| - 1].text))
    decreases |rs|
  {
    if rs != [] {
      var s := StreamState(true, base);
      assert StreamablePartial(base, rs[0]);
      assert HandleAll(s, rs, host, base + previous) == HandleAll(s, rs[1..], host, base + rs[0].text) by {
        PartialReplacesPartial(base, previous, rs[0], host);
        HandleAllStep(s, rs, host, base + previous, Outcome(s, base + rs[0].text));
      }
      assert forall i | 0 <= i < |rs[1..]| :: StreamablePartial(base, rs[1..][i]) by {
        forall i | 0 <= i < |rs[1..]| ensures StreamablePartial(base, rs[1..][i]) {
          assert rs[1..][i] == rs[i + 1];
        }
      }
      StreamShowsLatestPartial(base, rs[0].text, rs[1..], host);
    }
  }

  /** In a document with at least 1000 characters before the cursor the snapshot and the
      window have the same length, so nothing is deleted: every partial is appended. */
  lemma LongDocumentAppends(s: StreamState, t: string, host: Host, buf: string)
    requires Streams(host) && !IsBlank(t) && |buf| >= WINDOW
    requires !s.streaming || |s.lastCommittedText| == WINDOW
    ensures HandleResult(s, RecognitionResult(t, true, false), host, buf).text == buf + t
  {
  }
}
