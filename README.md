# YuyanDual voice input, display routing and keyboard cache

This project models, in Dafny, the parts of the YuyanDual input method that make decisions:

- **The voice pipeline.** `SherpaVoiceRecognizer` captures audio and decodes it with the sherpa-ncnn engine. `VoiceRecognitionManager` owns the recognizer, listens to its callbacks and writes the recognized text into the editor. Partial results are streamed: each one replaces the previous one. The cleaned final result replaces the last partial.
- **`PermissionManager`.** The status tables for the two runtime permissions that voice input needs.
- **`ImeService` display routing.** It decides whether the keyboard is shown on a secondary (presentation) display, which of the four display states results, and when that forces a relayout. It also picks the debug label.
- **`KeyboardManager`.** The layout-code table and the per-type cache of keyboard containers.

Source paths in the text are relative to `app/src/main/java/com/yuyan/imemodule/`.

## Modules

| File | Module | What it models |
|---|---|---|
| `voice_types.dfy` | `VoiceTypes` | The recognition states, the results and the listener callbacks, as values. |
| `text_cleanup.dfy` | `TextCleanup` | `processRecognizedText` (`trim()`, then `replace(Regex("\\s+"), " ")`) and `isBlank`. |
| `decoder.dfy` | `Decoding` | The engine, as an abstract object (details below). |
| `sherpa_recognizer.dfy` | `SherpaRecognizer` | The recognizer (details below). |
| `editor.dfy` | `Editor` | The text before the cursor, seen through an `InputConnection`. |
| `streaming.dfy` | `Streaming` | `handleRecognitionResult` as a function from the streaming state, a result and the editor text to the new state and text. |
| `voice_manager.dfy` | `VoiceManager` | The manager (details below). |
| `voice_manager.dfy` | `VoiceSessions` | Whole sessions built from the manager's functions. |
| `permissions.dfy` | `Permissions` | `PermissionManager`. |
| `ime_display.dfy` | `ImeDisplay` | The display decisions of `ImeService`. |
| `keyboards.dfy` | `Keyboards` | `KeyboardManager`. |

**`Decoding`: the engine.** It has a counter of buffered frames, which makes the `while (isReady()) decode()` loop terminate. It also has a script of the hypothesis updates that later decode steps produce.

**`SherpaRecognizer`: the recognizer.** It is given twice:

- as functions from an abstract `Snapshot` to the next snapshot and the callbacks made;
- as a class whose methods update the fields in place and are proved to agree with those functions.

The capture thread is a sequence of reads. Each read reports the count `read` returned, or that it threw. For a block that is fed to the engine, it also says where an exception interrupts a guarded step: in `acceptSamples`; in the decode loop after a given number of decode steps; in `isEndpoint()` or `text`; or in the `reset()` after an endpoint result.

**`VoiceManager`: the manager.** It too is given as spec functions and as a class that holds a `SherpaVoiceRecognizer` and an `InputConnection`.

### Behaviour of the source that the model makes explicit

- **A final text can be committed twice.** At an endpoint the recognizer keeps `currentText` (`voice/SherpaVoiceRecognizer.kt:428-444`). A later `stopRecognition` sends that text again as a final result (`voice/SherpaVoiceRecognizer.kt:334-342`). The first final has already closed streaming, so the manager takes its non-streaming path and commits the text a second time when auto-commit is on. `VoiceSessions.EndpointThenStopCommitsTwice` proves this for a concrete session: the editor ends with `base + "hello" + "hello"`.
- **Replacement only works inside the 1000-character window.** A partial replaces the previous one only while the snapshot plus the hypothesis fit in the 1000-character window that `getTextBeforeCursor(1000, 0)` reads. `Streaming.LongDocumentAppends` shows the other case: with 1000 or more characters before the cursor, nothing is ever deleted and each partial is appended.
- **`trim()` and `\s` disagree on white space.** `trim()` and `isBlank()` use Kotlin's `Char.isWhitespace`. On Android, `Regex` is backed by ICU, whose `\s` is the Unicode property White_Space. So runs of ideographic spaces (U+3000) and of vertical tabs (U+000B) inside the text collapse to one space (`TextCleanup.IdeographicSpacesCollapse`, `TextCleanup.VerticalTabsCollapse`). A run of the separators U+001C to U+001F is not collapsed, because those are white space to `trim()` but not `\s` (`TextCleanup.SeparatorsSurvive`). Next line (U+0085) is the other way round: `trim()` keeps it, and the collapse then turns it into a space. So a recognized text that starts or ends with it is cleaned to a text that starts or ends with a space, and cleaning that text again removes the space (`TextCleanup.NextLineLeadsCleanedText`); see "## Findings".
- **The placeholder goes down the partial path.** The `"[录音中...]"` placeholder sent every 500th read is an ordinary partial result, so it is streamed into the editor like one.
- **`onStartInputView` never takes the refresh branch of `tryShowSecondary`.** `onStartInputView` calls `dismissSecondary` first, so when it calls `tryShowSecondary` no presentation is showing. `TryShowSecondary` models that branch anyway, for any caller.
- **The two permission-status variants can disagree.** With RECORD_AUDIO granted and MODIFY_AUDIO_SETTINGS missing, the Activity variant reports GRANTED and the Context variant does not (`Permissions.StatusVariantsCompared`).

## Model

| member | source | states |
|---|---|---|
| Decoding.Accepted | app/src/main/java/com/yuyan/imemodule/voice/SherpaVoiceRecognizer.kt:570-572 | Feeding a block adds exactly its completed frames to the buffered work and leaves the hypothesis, the endpoint flag and the remaining script alone. |
| Decoding.Cleared | app/src/main/java/com/yuyan/imemodule/voice/SherpaVoiceRecognizer.kt:586-588 | `reset` empties the hypothesis and clears the endpoint flag. Buffered frames are dropped only when the stream is recreated. |
| Decoding.Step | app/src/main/java/com/yuyan/imemodule/voice/SherpaVoiceRecognizer.kt:409-411 | One decode step uses up one buffered frame, never more than there is. When the script has an update, that update becomes the hypothesis and leaves the script; otherwise the hypothesis stays. |
| Decoding.Drain | app/src/main/java/com/yuyan/imemodule/voice/SherpaVoiceRecognizer.kt:409-412 | `while (isReady()) decode()` ends only when the engine has no more work. |
| Decoding.DrainAtMost | app/src/main/java/com/yuyan/imemodule/voice/SherpaVoiceRecognizer.kt:405-420 | A decode loop interrupted after k steps has taken exactly min(k, pending) steps, one buffered frame each. |
| Decoding.DecodeLoop | app/src/main/java/com/yuyan/imemodule/voice/SherpaVoiceRecognizer.kt:405-420 | Run to the end, the decode loop leaves no buffered work; interrupted after k steps, it leaves the frames it did not reach. Either way a later full loop ends where the full loop would have. |
| Decoding.DrainEffect | app/src/main/java/com/yuyan/imemodule/voice/SherpaVoiceRecognizer.kt:409-412 | After `while (isReady()) decode()` the engine is not ready. The loop used up one script entry per buffered frame, as far as the script goes. The hypothesis is the last entry it used, or the old one if it used none. |
| Decoding.DrainAtMostEffect | app/src/main/java/com/yuyan/imemodule/voice/SherpaVoiceRecognizer.kt:405-420 | A decode loop interrupted by an exception after k steps has taken min(k, pending) steps, one buffered frame and one script entry each as far as the script goes. The hypothesis is the last entry it used, or the old one. |
| Decoding.LateFaultIsHarmless | app/src/main/java/com/yuyan/imemodule/voice/SherpaVoiceRecognizer.kt:405-420 | An exception that could only come after the last step interrupts nothing: the state is that of the full loop. |
| Decoding.DrainResumes | app/src/main/java/com/yuyan/imemodule/voice/SherpaVoiceRecognizer.kt:405-420 | Running the full loop after an interrupted one gives the state of the full loop: an interrupted loop only leaves work undone. |
| Decoding.Decoder.constructor | app/src/main/java/com/yuyan/imemodule/voice/SherpaVoiceRecognizer.kt:557-560 | A new engine has no buffered work and an empty hypothesis. |
| Decoding.Decoder.AcceptSamples | app/src/main/java/com/yuyan/imemodule/voice/SherpaVoiceRecognizer.kt:570-572 | The object's new state is `Accepted` of its old state. |
| Decoding.Decoder.Decode | app/src/main/java/com/yuyan/imemodule/voice/SherpaVoiceRecognizer.kt:578-580 | One decode step uses up one buffered frame and takes the next hypothesis update. |
| Decoding.Decoder.Reset | app/src/main/java/com/yuyan/imemodule/voice/SherpaVoiceRecognizer.kt:586-588 | The object's new state is `Cleared` of its old state. |
| SherpaRecognizer.AfterInitialize | app/src/main/java/com/yuyan/imemodule/voice/SherpaVoiceRecognizer.kt:89-132 | Returns true exactly when the native library is loaded and creating the engine succeeds; it then ends in READY with a fresh engine and one READY callback. Every failure ends in ERROR and makes exactly one `onError` call. A missing library reports the library error. |
| SherpaRecognizer.AfterStart | app/src/main/java/com/yuyan/imemodule/voice/SherpaVoiceRecognizer.kt:220-269 | Outside READY it returns false with no change and no callback. Otherwise it succeeds exactly when the microphone opens. On success the state is RECORDING, recording and the capture loop are on, both texts are "", the frame count is 0, and the one callback is RECORDING. The engine's stream is recreated by `reset(true)`, dropping its buffered frames and hypothesis, unless that reset throws; then the engine is kept as it was. A microphone failure gives ERROR and exactly the start-failed error callback. |
| SherpaRecognizer.AfterStop | app/src/main/java/com/yuyan/imemodule/voice/SherpaVoiceRecognizer.kt:316-351 | A no-op when not recording. Otherwise recording and the capture loop stop and the state is READY; the texts, the engine and the frame count are kept. The callbacks are exactly: a final result carrying `currentText` when that text is not blank, then READY. |
| SherpaRecognizer.StopTwice | app/src/main/java/com/yuyan/imemodule/voice/SherpaVoiceRecognizer.kt:316-319 | A second stop in a row emits nothing and changes nothing. |
| SherpaRecognizer.Decoded | app/src/main/java/com/yuyan/imemodule/voice/SherpaVoiceRecognizer.kt:394-420 | The engine after a block is fed and decoded. When the loop is not interrupted it has no more work. In every case the full loop from it reaches the same state as the full loop from the freshly fed engine. |
| SherpaRecognizer.DecodedSteps | app/src/main/java/com/yuyan/imemodule/voice/SherpaVoiceRecognizer.kt:394-420 | The decode loop of an iteration uses up one buffered frame and one script entry per step: all buffered frames, or min(k, pending) of them when it is interrupted after k steps. |
| SherpaRecognizer.AfterFrame | app/src/main/java/com/yuyan/imemodule/voice/SherpaVoiceRecognizer.kt:364-460 | One loop iteration never changes the lifecycle state or the recording flag. A read that throws leaves the loop and emits nothing. Any other read counts a frame. `ret <= 0` emits nothing and touches nothing else. A failed `acceptSamples` emits at most the placeholder and leaves the engine and texts as they were. Only results are emitted. |
| SherpaRecognizer.AfterFeed | app/src/main/java/com/yuyan/imemodule/voice/SherpaVoiceRecognizer.kt:394-452 | After a block is fed, only the engine, `currentText` and `lastRecognizedText` can change. A result step that throws emits nothing more. |
| SherpaRecognizer.AfterQuery | app/src/main/java/com/yuyan/imemodule/voice/SherpaVoiceRecognizer.kt:423-452 | Emits at most one result, after the ones already sent. It emits one exactly when the hypothesis is not blank and differs from `currentText`. That result has `isPartial == !isEndpoint` and becomes `currentText`. At an endpoint it also becomes `lastRecognizedText`, and the engine's hypothesis is cleared unless that `reset()` throws; the engine changes in no other case. With no result, nothing changes. |
| SherpaRecognizer.FrameEmissions | app/src/main/java/com/yuyan/imemodule/voice/SherpaVoiceRecognizer.kt:384-452 | Each iteration emits the placeholder when it is due, then at most one decoded result. That result is sent exactly when the engine's text after feeding and decoding, whether or not the decode loop was interrupted, is not blank and differs from `currentText`. `currentText` changes only together with such a result. The engine ends as the decoded engine, cleared after an endpoint result unless that reset throws. |
| SherpaRecognizer.FrameDrainsEngine | app/src/main/java/com/yuyan/imemodule/voice/SherpaVoiceRecognizer.kt:405-420 | When the decode loop runs to its end without an exception, the engine is not ready afterwards. |
| SherpaRecognizer.IdleFrames | app/src/main/java/com/yuyan/imemodule/voice/SherpaVoiceRecognizer.kt:364 | Once the loop has stopped, further reads change nothing and emit nothing. |
| SherpaRecognizer.AfterFrames | app/src/main/java/com/yuyan/imemodule/voice/SherpaVoiceRecognizer.kt:356-463 | A run of the capture loop never changes the lifecycle state or the recording flag, counts at most one frame per read, and delivers only results. |
| SherpaRecognizer.CaptureRunResults | app/src/main/java/com/yuyan/imemodule/voice/SherpaVoiceRecognizer.kt:364-460 | Over a whole capture run, the lifecycle state and the recording flag are unchanged. Every callback is a result with `isPartial == !isEndpoint`. |
| SherpaRecognizer.AfterDestroy | app/src/main/java/com/yuyan/imemodule/voice/SherpaVoiceRecognizer.kt:515-523 | `destroy` makes the callbacks of a stop, releases the engine, and ends in DESTROYED, not recording. A recording recognizer also leaves its capture loop. The texts, the frame count and every other field are kept. |
| SherpaRecognizer.SherpaVoiceRecognizer.constructor | app/src/main/java/com/yuyan/imemodule/voice/SherpaVoiceRecognizer.kt:66-84 | A new recognizer is IDLE, not recording, with empty texts and no engine. |
| SherpaRecognizer.SherpaVoiceRecognizer.Initialize | app/src/main/java/com/yuyan/imemodule/voice/SherpaVoiceRecognizer.kt:89-132 | The fields, the callbacks and the return value are those of `AfterInitialize`. |
| SherpaRecognizer.SherpaVoiceRecognizer.StartRecognition | app/src/main/java/com/yuyan/imemodule/voice/SherpaVoiceRecognizer.kt:220-269 | The fields, the callbacks and the return value are those of `AfterStart`. |
| SherpaRecognizer.SherpaVoiceRecognizer.StopRecognition | app/src/main/java/com/yuyan/imemodule/voice/SherpaVoiceRecognizer.kt:316-351 | The fields and the callbacks are those of `AfterStop`. |
| SherpaRecognizer.SherpaVoiceRecognizer.DecodeAvailable | app/src/main/java/com/yuyan/imemodule/voice/SherpaVoiceRecognizer.kt:405-420 | The decode loop terminates. It leaves the engine in `Drain` of its old state, or, when `isReady()` or `decode()` throws after k steps, in the state after those k steps (`DrainAtMost`). |
| SherpaRecognizer.SherpaVoiceRecognizer.ProcessFrame | app/src/main/java/com/yuyan/imemodule/voice/SherpaVoiceRecognizer.kt:365-459 | One iteration changes the fields and makes the callbacks as `AfterFrame` says. |
| SherpaRecognizer.SherpaVoiceRecognizer.FeedEngine | app/src/main/java/com/yuyan/imemodule/voice/SherpaVoiceRecognizer.kt:394-452 | Feeding, decoding and the result step agree with `AfterFeed`. |
| SherpaRecognizer.SherpaVoiceRecognizer.QueryResult | app/src/main/java/com/yuyan/imemodule/voice/SherpaVoiceRecognizer.kt:423-452 | The result step agrees with `AfterQuery`. |
| SherpaRecognizer.SherpaVoiceRecognizer.ProcessAudioSamples | app/src/main/java/com/yuyan/imemodule/voice/SherpaVoiceRecognizer.kt:356-463 | The loop `while (isRecording)` over the reads, which also ends when a read throws, agrees with `AfterFrames`: the iterations one after another. |
| SherpaRecognizer.SherpaVoiceRecognizer.Destroy | app/src/main/java/com/yuyan/imemodule/voice/SherpaVoiceRecognizer.kt:515-523 | The fields and the callbacks are those of `AfterDestroy`. |
| Editor.TextBeforeCursor | app/src/main/java/com/yuyan/imemodule/voice/VoiceRecognitionManager.kt:211 | Returns the last min(n, length) characters before the cursor, a suffix of the text. |
| Editor.DeleteBefore | app/src/main/java/com/yuyan/imemodule/voice/VoiceRecognitionManager.kt:220-222 | k single deletions leave the prefix that is min(k, length) characters shorter. |
| Editor.DeleteOneMore | app/src/main/java/com/yuyan/imemodule/voice/VoiceRecognitionManager.kt:220-222 | k deletions followed by one more are k + 1 deletions. |
| Editor.InputConnection.constructor | app/src/main/java/com/yuyan/imemodule/voice/VoiceRecognitionManager.kt:204 | A connection to an editor that holds the given text before the cursor. |
| Editor.InputConnection.GetTextBeforeCursor | app/src/main/java/com/yuyan/imemodule/voice/VoiceRecognitionManager.kt:216 | Reading the window returns `TextBeforeCursor` of the editor's text. |
| Editor.InputConnection.DeleteCharBeforeCursor | app/src/main/java/com/yuyan/imemodule/voice/VoiceRecognitionManager.kt:221 | `deleteSurroundingText(1, 0)` removes the character before the cursor, if there is one. |
| Editor.InputConnection.CommitText | app/src/main/java/com/yuyan/imemodule/voice/VoiceRecognitionManager.kt:226 | `commitText(t, 1)` appends t before the cursor. |
| Streaming.DeleteCount | app/src/main/java/com/yuyan/imemodule/voice/VoiceRecognitionManager.kt:216-223 | The number of characters deleted is exactly max(0, \|window\| - \|snapshot\|), where the window is min(1000, length) characters. |
| Streaming.Replace | app/src/main/java/com/yuyan/imemodule/voice/VoiceRecognitionManager.kt:216-226 | The text becomes its prefix, shortened by the delete count, followed by the committed text. |
| Streaming.HandleResult | app/src/main/java/com/yuyan/imemodule/voice/VoiceRecognitionManager.kt:188-296 | Nothing happens without a service or with a blank text. Without a connection the editor is untouched. The first partial snapshots the window, and each partial then replaces the streamed text. A final while streaming replaces it with the cleaned text and stops streaming. A final otherwise appends the cleaned text only when auto-commit is on. A result that is neither partial nor final is ignored. |
| Streaming.HandleAll | app/src/main/java/com/yuyan/imemodule/voice/VoiceRecognitionManager.kt:188-296 | Results handled in order have no effect at all without a running service, and never touch the editor without an input connection. |
| Streaming.FirstPartialAppends | app/src/main/java/com/yuyan/imemodule/voice/VoiceRecognitionManager.kt:208-226 | The first partial in a text that fits the window starts streaming, with the whole text as the snapshot, and appends the partial. |
| Streaming.PartialReplacesPartial | app/src/main/java/com/yuyan/imemodule/voice/VoiceRecognitionManager.kt:215-226 | While streaming within the window, a partial replaces the previous one: the text becomes snapshot + new partial. |
| Streaming.FinalReplacesPartial | app/src/main/java/com/yuyan/imemodule/voice/VoiceRecognitionManager.kt:238-265 | A final while streaming within the window leaves snapshot + cleaned final text, with streaming off and the snapshot "". |
| Streaming.StreamShowsLatestPartial | app/src/main/java/com/yuyan/imemodule/voice/VoiceRecognitionManager.kt:199-232 | After any run of partials that each fit the window, the editor shows the snapshot followed by the latest partial only. |
| Streaming.LongDocumentAppends | app/src/main/java/com/yuyan/imemodule/voice/VoiceRecognitionManager.kt:211-223 | With 1000 or more characters before the cursor, nothing is deleted and every partial is appended. |
| TextCleanup.TrimStart | app/src/main/java/com/yuyan/imemodule/voice/VoiceRecognitionManager.kt:304 | Drops exactly a white-space prefix and leaves a suffix that does not start with white space. |
| TextCleanup.TrimEnd | app/src/main/java/com/yuyan/imemodule/voice/VoiceRecognitionManager.kt:304 | Drops exactly a white-space suffix and leaves a prefix that does not end with white space. |
| TextCleanup.Trim | app/src/main/java/com/yuyan/imemodule/voice/VoiceRecognitionManager.kt:304 | Empty exactly when the input is blank. Otherwise it neither starts nor ends with white space, and it is never longer than the input. |
| TextCleanup.TrimIsSlice | app/src/main/java/com/yuyan/imemodule/voice/VoiceRecognitionManager.kt:304 | The trimmed text is a slice of the input with only white space before and after it. |
| TextCleanup.TrimIsEmptyIffBlank | app/src/main/java/com/yuyan/imemodule/voice/VoiceRecognitionManager.kt:304 | The two halves of `trim()` leave nothing exactly when the input is blank. |
| TextCleanup.RegexSpaceVersusWhitespace | app/src/main/java/com/yuyan/imemodule/voice/VoiceRecognitionManager.kt:304-307 | `\s` and `trim()`'s white space differ exactly in next line (U+0085), which is only `\s`, and U+001C to U+001F, which are only white space. |
| TextCleanup.DropRegexSpaces | app/src/main/java/com/yuyan/imemodule/voice/VoiceRecognitionManager.kt:307 | Drops exactly the leading run of `\s` characters. |
| TextCleanup.CollapseSpaces | app/src/main/java/com/yuyan/imemodule/voice/VoiceRecognitionManager.kt:307 | `replace(Regex("\\s+"), " ")` never lengthens the text and gives "" exactly for "". |
| TextCleanup.CollapseRun | app/src/main/java/com/yuyan/imemodule/voice/VoiceRecognitionManager.kt:307 | A maximal run of `\s` becomes exactly one space: for `a` not ending and `b` not starting with `\s`, collapsing `a + run + b` gives the collapse of `a`, one space, and the collapse of `b`. |
| TextCleanup.CollapseAppend | app/src/main/java/com/yuyan/imemodule/voice/VoiceRecognitionManager.kt:307 | Collapsing works piecewise: splitting the text after a character that is not `\s` splits the result there too. |
| TextCleanup.Words | app/src/main/java/com/yuyan/imemodule/voice/VoiceRecognitionManager.kt:307 | The characters other than `\s`, in order: the reference against which the collapse is checked. |
| TextCleanup.CollapseFirst | app/src/main/java/com/yuyan/imemodule/voice/VoiceRecognitionManager.kt:307 | The collapsed text starts with the first character, or with a plain space when that character is `\s`. |
| TextCleanup.CollapseLast | app/src/main/java/com/yuyan/imemodule/voice/VoiceRecognitionManager.kt:307 | The collapsed text ends with the last character, or with a plain space when that character is `\s`. |
| TextCleanup.CollapseLastAfterSpace | app/src/main/java/com/yuyan/imemodule/voice/VoiceRecognitionManager.kt:307 | The same, for a text that starts with `\s`. |
| TextCleanup.CollapseIsCollapsed | app/src/main/java/com/yuyan/imemodule/voice/VoiceRecognitionManager.kt:307 | In the result every `\s` character is a plain space, and no two of them are adjacent. |
| TextCleanup.CollapseFixesCollapsed | app/src/main/java/com/yuyan/imemodule/voice/VoiceRecognitionManager.kt:307 | A text that is already collapsed is left unchanged. |
| TextCleanup.DropKeepsWords | app/src/main/java/com/yuyan/imemodule/voice/VoiceRecognitionManager.kt:307 | Dropping leading spaces keeps the characters other than `\s`. |
| TextCleanup.CollapseKeepsWords | app/src/main/java/com/yuyan/imemodule/voice/VoiceRecognitionManager.kt:307 | Collapsing changes only white space: the other characters are kept, in order. |
| TextCleanup.ProcessedTextIsClean | app/src/main/java/com/yuyan/imemodule/voice/VoiceRecognitionManager.kt:302-315 | The cleaned text is empty exactly for blank input and has no run of two `\s` characters. It starts (ends) with white space exactly when the trimmed text starts (ends) with next line (U+0085). |
| TextCleanup.ProcessRecognizedText | app/src/main/java/com/yuyan/imemodule/voice/VoiceRecognitionManager.kt:302-315 | The cleaned text is never longer than the recognized text, and is empty exactly when that text is blank. |
| TextCleanup.ProcessedEnds | app/src/main/java/com/yuyan/imemodule/voice/VoiceRecognitionManager.kt:304-307 | Collapsing a trimmed text keeps its first and last characters, except that next line there becomes a plain space. |
| TextCleanup.ProcessedTextKeepsWords | app/src/main/java/com/yuyan/imemodule/voice/VoiceRecognitionManager.kt:302-315 | Cleaning keeps all characters other than `\s` of the trimmed text, in order. |
| TextCleanup.ProcessIdempotent | app/src/main/java/com/yuyan/imemodule/voice/VoiceRecognitionManager.kt:302-315 | Cleaning twice is the same as cleaning once exactly when the trimmed text neither starts nor ends with next line. |
| TextCleanup.IdeographicSpacesCollapse | app/src/main/java/com/yuyan/imemodule/voice/VoiceRecognitionManager.kt:304-307 | A run of two ideographic spaces (U+3000) between words is collapsed to one plain space, because Android's `\s` matches every space separator. |
| TextCleanup.VerticalTabsCollapse | app/src/main/java/com/yuyan/imemodule/voice/VoiceRecognitionManager.kt:304-307 | A run of two vertical tabs (U+000B) between words is collapsed to one space: ICU's `\s` matches them. |
| TextCleanup.SeparatorsSurvive | app/src/main/java/com/yuyan/imemodule/voice/VoiceRecognitionManager.kt:304-307 | A run of two information separators (U+001C) between words is left as it is: `trim()` counts them as white space, but `\s` does not match them. |
| TextCleanup.NextLineLeadsCleanedText | app/src/main/java/com/yuyan/imemodule/voice/VoiceRecognitionManager.kt:302-315 | "\u0085a" is cleaned to " a", which starts with white space, and " a" is cleaned to "a". |
| TextCleanup.CleanRecognizedText | app/src/main/java/com/yuyan/imemodule/voice/VoiceRecognitionManager.kt:302-315 | The intended cleanup: empty for blank input, no white space at either end, and no run of two `\s` characters. |
| TextCleanup.CleanIdempotent | app/src/main/java/com/yuyan/imemodule/voice/VoiceRecognitionManager.kt:302-315 | Cleaning twice with the intended cleanup is the same as cleaning once. |
| TextCleanup.CleanAgreesWithSource | app/src/main/java/com/yuyan/imemodule/voice/VoiceRecognitionManager.kt:302-315 | The source's cleanup gives the intended result exactly when the trimmed text neither starts nor ends with next line. |
| TextCleanup.TrimKeepsCollapsed | app/src/main/java/com/yuyan/imemodule/voice/VoiceRecognitionManager.kt:304-307 | Trimming a text with no run of two `\s` characters keeps that property. |
| VoiceManager.Listen | app/src/main/java/com/yuyan/imemodule/voice/VoiceRecognitionManager.kt:74-87 | The listener changes only the streaming state and the initialized flag. An error clears the flag. A state change touches neither the stream nor the editor. |
| VoiceManager.Deliver | app/src/main/java/com/yuyan/imemodule/voice/VoiceRecognitionManager.kt:74-87 | Handling callbacks in order never changes the recording, initializing or recognizer fields. The manager stays initialized exactly when no callback was an error. |
| VoiceManager.DeliverIgnoresRecognizer | app/src/main/java/com/yuyan/imemodule/voice/VoiceRecognitionManager.kt:74-87 | The listener never reads the recognizer, so it does not matter whether its callbacks are handled before or after the recognizer's own update. |
| VoiceManager.ManagerAfterInitialize | app/src/main/java/com/yuyan/imemodule/voice/VoiceRecognitionManager.kt:45-122 | Returns true at once when already initialized. Returns false with no change while another initialize is in flight or without permissions. Otherwise it succeeds exactly when the new recognizer does, A success holds that READY recognizer and sets `isInitialized`, and changes nothing else. A failure leaves the state unchanged. `isInitializing` is clear afterwards on every path that set it. |
| VoiceManager.ManagerAfterStart | app/src/main/java/com/yuyan/imemodule/voice/VoiceRecognitionManager.kt:127-166 | Returns false when voice is disabled or there is no recognizer. Returns true with no change when already recording. Otherwise it succeeds exactly when the recognizer is READY and the microphone opens, which starts recording, resets streaming and leaves the recognizer RECORDING. A recognizer that is not READY changes nothing. Otherwise the recognizer takes its `startRecognition`; an error callback clears `isInitialized`; a successful start sets recording and resets streaming; nothing else changes. A microphone failure leaves the manager uninitialized, not recording, and the recognizer in ERROR. |
| VoiceManager.ManagerAfterStop | app/src/main/java/com/yuyan/imemodule/voice/VoiceRecognitionManager.kt:171-183 | A no-op when not recording. Otherwise recording ends. With a recognizer, the state is exactly that of the listener handling the recognizer's stop callbacks (its final result, then READY) in order, with the recognizer already stopped; the editor text is what that delivery leaves. |
| VoiceManager.ManagerAfterCapture | app/src/main/java/com/yuyan/imemodule/voice/VoiceRecognitionManager.kt:74-77 | Without a recognizer nothing changes. Otherwise the state and the editor text are exactly those of the listener handling the capture run's callbacks in order, with the recognizer at the end of the run; the recording flag is unchanged. |
| VoiceManager.CaptureKeepsFlags | app/src/main/java/com/yuyan/imemodule/voice/VoiceRecognitionManager.kt:74-87 | A capture run only delivers results: it reports no error, so `isInitialized`, recording, `isInitializing` and the recognizer's state are kept. |
| VoiceManager.CurrentState | app/src/main/java/com/yuyan/imemodule/voice/VoiceRecognitionManager.kt:322-330 | IDLE, READY or RECORDING. RECORDING exactly when there is a recognizer and the manager is initialized and recording. READY exactly when the same holds except that it is not recording. |
| VoiceManager.VoiceRecognitionManager.constructor | app/src/main/java/com/yuyan/imemodule/voice/VoiceRecognitionManager.kt:23-40 | No recognizer, not initialized, not recording, not streaming. |
| VoiceManager.VoiceRecognitionManager.Initialize | app/src/main/java/com/yuyan/imemodule/voice/VoiceRecognitionManager.kt:45-122 | The fields and the return value follow `ManagerAfterInitialize`. |
| VoiceManager.VoiceRecognitionManager.StartRecognition | app/src/main/java/com/yuyan/imemodule/voice/VoiceRecognitionManager.kt:127-166 | The fields and the return value follow `ManagerAfterStart`. |
| VoiceManager.VoiceRecognitionManager.DeleteStreamed | app/src/main/java/com/yuyan/imemodule/voice/VoiceRecognitionManager.kt:216-223 | The loop of single deletions removes exactly `DeleteCount` characters. |
| VoiceManager.VoiceRecognitionManager.HandleRecognitionResult | app/src/main/java/com/yuyan/imemodule/voice/VoiceRecognitionManager.kt:188-296 | The streaming fields and the editor text follow `HandleResult`. No other field changes. |
| VoiceManager.VoiceRecognitionManager.StreamPartial | app/src/main/java/com/yuyan/imemodule/voice/VoiceRecognitionManager.kt:199-232 | After a partial the manager is streaming, with the snapshot taken at the first partial, and the editor shows `Replace` of it. |
| VoiceManager.VoiceRecognitionManager.CommitFinal | app/src/main/java/com/yuyan/imemodule/voice/VoiceRecognitionManager.kt:234-288 | A final while streaming replaces the stream with the cleaned text and resets the streaming fields. A final otherwise appends the cleaned text when auto-commit is on. |
| VoiceManager.VoiceRecognitionManager.Dispatch | app/src/main/java/com/yuyan/imemodule/voice/VoiceRecognitionManager.kt:74-87 | Handling each callback in turn agrees with `Deliver`. |
| VoiceManager.VoiceRecognitionManager.StopRecognition | app/src/main/java/com/yuyan/imemodule/voice/VoiceRecognitionManager.kt:171-183 | The fields and the editor text follow `ManagerAfterStop`. |
| VoiceManager.VoiceRecognitionManager.CaptureAudio | app/src/main/java/com/yuyan/imemodule/voice/VoiceRecognitionManager.kt:74-77 | The fields and the editor text follow `ManagerAfterCapture`. |
| VoiceManager.VoiceRecognitionManager.GetCurrentState | app/src/main/java/com/yuyan/imemodule/voice/VoiceRecognitionManager.kt:322-330 | Returns `CurrentState` of the object's state. |
| VoiceSessions.MicFailureNeedsReinitialize | app/src/main/java/com/yuyan/imemodule/voice/SherpaVoiceRecognizer.kt:224-268 | After a microphone failure, `getCurrentState` is IDLE and starting again fails. A new `initialize` makes starting possible again. |
| VoiceSessions.StopReplacesStreamedText | app/src/main/java/com/yuyan/imemodule/voice/VoiceRecognitionManager.kt:171-183 | Stopping after partials only leaves the snapshot plus the cleaned last text, with streaming off and the recognizer READY. |
| VoiceSessions.StopSendsFinal | app/src/main/java/com/yuyan/imemodule/voice/SherpaVoiceRecognizer.kt:334-345 | A stop with a non-blank `currentText` sends exactly that text as a final, then READY. |
| VoiceSessions.DeliverStreamedFinal | app/src/main/java/com/yuyan/imemodule/voice/VoiceRecognitionManager.kt:238-265 | The final and the READY callback of a stop, while streaming, leave the snapshot plus the cleaned text and end streaming. |
| VoiceSessions.DeliverThenReady | app/src/main/java/com/yuyan/imemodule/voice/VoiceRecognitionManager.kt:79-81 | A READY callback after any callback has no further effect. |
| VoiceSessions.SilentSessionCommitsNothing | app/src/main/java/com/yuyan/imemodule/voice/VoiceRecognitionManager.kt:127-183 | A start followed by a stop with nothing recognized leaves the editor unchanged. |
| VoiceSessions.HelFrame | app/src/main/java/com/yuyan/imemodule/voice/SherpaVoiceRecognizer.kt:428-437 | In the example session, the first read decodes "hel" and sends it as a partial. |
| VoiceSessions.HelloFrame | app/src/main/java/com/yuyan/imemodule/voice/SherpaVoiceRecognizer.kt:428-444 | The second read decodes "hello" at an endpoint, sends it as a final and resets the engine, while `currentText` stays "hello". |
| VoiceSessions.HelloCapture | app/src/main/java/com/yuyan/imemodule/voice/SherpaVoiceRecognizer.kt:364-460 | The capture run of the example session: the partial "hel", then the final "hello". |
| VoiceSessions.EndpointThenStopCommitsTwice | app/src/main/java/com/yuyan/imemodule/voice/VoiceRecognitionManager.kt:267-288 | After the endpoint final the editor holds `base + "hello"`, with streaming closed. The stop then re-sends "hello", and the non-streaming path commits it again: `base + "hello" + "hello"`. |
| VoiceSessions.DeliverHello | app/src/main/java/com/yuyan/imemodule/voice/VoiceRecognitionManager.kt:199-265 | The partial "hel" is streamed, then the final "hello" replaces it. |
| VoiceSessions.DeliverUnstreamedFinal | app/src/main/java/com/yuyan/imemodule/voice/VoiceRecognitionManager.kt:267-288 | A final and READY while not streaming append the cleaned text. |
| Permissions.GetMissingPermissions | app/src/main/java/com/yuyan/imemodule/permission/PermissionManager.kt:55-67 | RECORD_AUDIO is listed exactly when it is missing, and likewise MODIFY_AUDIO_SETTINGS. Nothing else is listed, and the order is RECORD_AUDIO first. The list is empty exactly when both are granted. |
| Permissions.HasPermissionsIffNoneMissing | app/src/main/java/com/yuyan/imemodule/permission/PermissionManager.kt:42-48 | Both permissions are held exactly when the list of missing permissions is empty. |
| Permissions.ListsMissingIsUnique | app/src/main/java/com/yuyan/imemodule/permission/PermissionManager.kt:55-67 | The missing-permission list is determined by the grants: two lists that both name exactly the missing permissions, in that order, are equal. |
| Permissions.RequestVoiceRecognitionPermissions | app/src/main/java/com/yuyan/imemodule/permission/PermissionManager.kt:73-83 | A request is made exactly when a permission is missing. It uses code 1001 and asks for exactly the missing permissions, each once, RECORD_AUDIO first. |
| Permissions.AllGranted | app/src/main/java/com/yuyan/imemodule/permission/PermissionManager.kt:94-95 | True exactly when every entry is PERMISSION_GRANTED. |
| Permissions.OnRequestPermissionsResult | app/src/main/java/com/yuyan/imemodule/permission/PermissionManager.kt:88-98 | True exactly when the code is 1001, the results are non-empty, and every result is granted. |
| Permissions.PermissionPrefs.constructor | app/src/main/java/com/yuyan/imemodule/permission/PermissionManager.kt:133 | An absent "has_requested_record_audio_before" flag reads as false. |
| Permissions.PermissionPrefs.MarkPermissionAsRequested | app/src/main/java/com/yuyan/imemodule/permission/PermissionManager.kt:179-182 | Afterwards the flag is set. |
| Permissions.GetRecordAudioPermissionStatus | app/src/main/java/com/yuyan/imemodule/permission/PermissionManager.kt:125-141 | GRANTED exactly when RECORD_AUDIO is held. Otherwise DENIED_BUT_CAN_ASK exactly when a rationale is shown. Otherwise PERMANENTLY_DENIED when requested before, else FIRST_REQUEST. |
| Permissions.GetVoicePermissionStatusForActivity | app/src/main/java/com/yuyan/imemodule/permission/PermissionManager.kt:148-151 | The Activity variant is the RECORD_AUDIO status alone. |
| Permissions.GetVoicePermissionStatusForContext | app/src/main/java/com/yuyan/imemodule/permission/PermissionManager.kt:158-173 | GRANTED exactly when both permissions are held. Never DENIED_BUT_CAN_ASK. Never FIRST_REQUEST once a request has been recorded. FIRST_REQUEST exactly when a permission is missing and none was recorded. |
| Permissions.StatusVariantsCompared | app/src/main/java/com/yuyan/imemodule/permission/PermissionManager.kt:148-173 | The two variants agree when both permissions, or neither, are held and no rationale is shown. With only RECORD_AUDIO held, the Activity variant says GRANTED and the Context variant does not. |
| Keyboards.LayoutToKeyboardType | app/src/main/java/com/yuyan/imemodule/keyboard/KeyboardManager.kt:37-46 | 0x1000 QWERTY, 0x4000 QWERTYABC, 0x3000 HANDWRITING, 0x5000 NUMBER, 0x6000 LX17, 0x8000 TEXTEDIT, and T9 exactly for every other code. |
| Keyboards.LayoutCodeRoundTrip | app/src/main/java/com/yuyan/imemodule/keyboard/KeyboardManager.kt:38-46 | Each type with a layout code is reached from its code. The other types are reached from no code. |
| Keyboards.Blueprint | app/src/main/java/com/yuyan/imemodule/keyboard/KeyboardManager.kt:55-67 | QWERTY, QWERTYABC and TEXTEDIT build a QwertyContainer; T9 and LX17 build a T9TextContainer. Exactly those five take a layout mask. |
| Keyboards.BlueprintKindIgnoresBits | app/src/main/java/com/yuyan/imemodule/keyboard/KeyboardManager.kt:66 | The default input mode picks only the mask, never the container class. |
| Keyboards.CacheAdd | app/src/main/java/com/yuyan/imemodule/keyboard/KeyboardManager.kt:53-70 | Caching a new container keeps every entry built for its own type, and keeps the containers distinct. |
| Keyboards.KeyboardManager.constructor | app/src/main/java/com/yuyan/imemodule/keyboard/KeyboardManager.kt:13-17 | No root view, an empty cache, no current keyboard. |
| Keyboards.KeyboardManager.Init | app/src/main/java/com/yuyan/imemodule/keyboard/KeyboardManager.kt:32-35 | Binds the root view and changes nothing else. |
| Keyboards.KeyboardManager.ClearKeyboard | app/src/main/java/com/yuyan/imemodule/keyboard/KeyboardManager.kt:27-30 | Empties the cache and changes nothing else. |
| Keyboards.KeyboardManager.SwitchKeyboard | app/src/main/java/com/yuyan/imemodule/keyboard/KeyboardManager.kt:51-76 | Does nothing without a root view. Otherwise a cached container is reused. A missing one is built once and cached; no other entry changes. The container is shown, becomes `currentContainer`, and the type becomes the current name. |
| Keyboards.KeyboardManager.SwitchKeyboardLayout | app/src/main/java/com/yuyan/imemodule/keyboard/KeyboardManager.kt:37-49 | Does nothing without a root view. Otherwise it switches to the type of the layout code, as `SwitchKeyboard` does: a cached container is reused, a missing one is built once and cached, and no other entry changes. The root view stays bound, and the container is shown and becomes current. |
| Keyboards.KeyboardManager.ForceRelayoutByToggle | app/src/main/java/com/yuyan/imemodule/keyboard/KeyboardManager.kt:79-88 | Does nothing without a root view. Otherwise the cache ends holding exactly one newly built container, for the current layout. The root view stays bound, and that container is shown and becomes current. |
| Keyboards.KeyboardManager.IsInputKeyboard | app/src/main/java/com/yuyan/imemodule/keyboard/KeyboardManager.kt:91-92 | True exactly when the current container is an input container. |
| Keyboards.InputContainerTypes | app/src/main/java/com/yuyan/imemodule/keyboard/KeyboardManager.kt:55-67 | The container built for a type is an InputBaseContainer exactly for HANDWRITING, NUMBER, QWERTY, QWERTYABC, LX17, TEXTEDIT and T9, so `isInputKeyboard` is false only for the other keyboards. |
| ImeDisplay.DesiredForceFull | app/src/main/java/com/yuyan/imemodule/service/ImeService.kt:244-247 | Full screen on the secondary display is wanted exactly when the preference is on, the primary display is landscape, the IME is on the primary display and the keyboard is not floating. |
| ImeDisplay.ShouldShowOnSecondary | app/src/main/java/com/yuyan/imemodule/service/ImeService.kt:258 | The secondary display is skipped exactly when the IME is on the primary display and that display is portrait. |
| ImeDisplay.ForceFullImpliesAttempt | app/src/main/java/com/yuyan/imemodule/service/ImeService.kt:246-258 | Whenever full screen is wanted, showing on the secondary display is attempted. |
| ImeDisplay.ChooseDisplayState | app/src/main/java/com/yuyan/imemodule/service/ImeService.kt:268-282 | PrimaryPortrait exactly when not shown on the secondary display. Otherwise SecondaryFullscreen exactly when full screen is forced, else SecondaryLandscape exactly when the secondary metrics are known and height <= width, else SecondaryPortrait. |
| ImeDisplay.DebugLabel | app/src/main/java/com/yuyan/imemodule/service/ImeService.kt:203-216 | "全屏", "副屏横屏" or "副屏竖屏" on the secondary display by force-full and orientation, and "主屏竖屏" on the primary, each exactly in its case. |
| ImeDisplay.LabelNamesDisplayState | app/src/main/java/com/yuyan/imemodule/service/ImeService.kt:203-282 | On the same inputs, the label is the name of the chosen display state. |
| ImeDisplay.ImeService.constructor | app/src/main/java/com/yuyan/imemodule/service/ImeService.kt:49-56 | No presentation, no secondary view, no last display state. |
| ImeDisplay.ImeService.GetActiveInputView | app/src/main/java/com/yuyan/imemodule/service/ImeService.kt:153 | Prefers the secondary view. Otherwise the primary view once it exists, else none. |
| ImeDisplay.ImeService.DismissSecondary | app/src/main/java/com/yuyan/imemodule/service/ImeService.kt:196-201 | Clears both the secondary view and the presentation, and nothing else. |
| ImeDisplay.ImeService.RefreshDebugLabel | app/src/main/java/com/yuyan/imemodule/service/ImeService.kt:203-224 | Writes `DebugLabel` to the presentation when a secondary view exists. Otherwise it writes it to the primary overlay. |
| ImeDisplay.ImeService.TryShowSecondary | app/src/main/java/com/yuyan/imemodule/service/ImeService.kt:156-194 | Returns false and changes nothing without a presentation display. When already showing on that display, it returns true without a new presentation and refreshes the label: `DebugLabel` goes into the presentation when a secondary view exists, otherwise into the primary overlay, and nothing else changes. Otherwise it shows a new presentation on that display, carrying its id, the metrics, full-screen mode and its `DebugLabel`, or clears both fields when showing throws; the primary label is untouched. |
| ImeDisplay.ImeService.ApplyRelayoutIfDisplayChanged | app/src/main/java/com/yuyan/imemodule/service/ImeService.kt:300-314 | Relays out exactly when the state differs from the last one. With a root view bound, the keyboard cache then holds exactly one newly built container, for the current layout; it is shown and current, and its type is the current name. Without a root view the keyboard manager is unchanged. Afterwards the last state is the current one, so a repeat call does nothing. |
| ImeDisplay.RelayoutCases | app/src/main/java/com/yuyan/imemodule/service/ImeService.kt:300-314 | A relayout is needed on the first display state, and afterwards exactly when the state differs from the last one. |
| ImeDisplay.ImeService.OnStartInputView | app/src/main/java/com/yuyan/imemodule/service/ImeService.kt:226-298 | Sets force-full by `DesiredForceFull`. It shows on the secondary display exactly when that is attempted and succeeds, and the display state is `ChooseDisplayState` of the outcome. An input view is always active. When shown on the secondary display, the secondary view and the shown presentation carry that display's id, and neither the primary label nor the primary view changes; otherwise there is no presentation and the primary view exists. The label shown names the state. A relayout happens exactly on a change: with a root view bound, the keyboard cache then holds one newly built container for the current layout, which is shown and current; otherwise the keyboard manager is unchanged. |

## Findings

| source | as written | input that shows it | evidently intended | confidence | as-written member | corrected member |
|---|---|---|---|---|---|---|
| app/src/main/java/com/yuyan/imemodule/voice/VoiceRecognitionManager.kt:304-307 | `trim()` runs before `replace(Regex("\\s+"), " ")`, and `trim()` keeps next line (U+0085), which `\s` matches | "\u0085a" is cleaned to " a", and cleaning " a" again gives "a" | the cleaned text has no white space at either end, so cleaning it again changes nothing | medium, not executed | TextCleanup.NextLineLeadsCleanedText | TextCleanup.CleanRecognizedText |

`NextLineLeadsCleanedText` is a statement about `ProcessRecognizedText`, the cleanup as written. `CleanIdempotent` proves the intended property of `CleanRecognizedText`. The manager model commits `ProcessRecognizedText`, as the code does. `CleanAgreesWithSource` proves that the two cleanups agree exactly when the trimmed text neither starts nor ends with next line.

## Left out

- Audio capture and the native engine are foreign calls. Each read is reduced to its count `ret`, the number of decodable frames it completes, and where an exception interrupts a guarded step. The engine's output is a script of hypotheses. The float sample scaling and the frame-size arithmetic are not modelled.
- Threads are not modelled: the capture thread, `AtomicBoolean`, `join(1000)`. The capture run is a sequence of reads taken before `stopRecognition`. The manager handles a recognizer's callbacks after the recognizer call returns. By `VoiceManager.DeliverIgnoresRecognizer` this gives the same result as handling them during the call.
- `VoiceRecognitionManager.destroy` is not modelled. It launches a coroutine and then cancels its scope at once, so whether the body runs depends on the coroutine dispatcher.
- Android queries become parameters:
  - permission checks;
  - the shouldShowRequestPermissionRationale answer;
  - the two voice preferences;
  - `ImeService.getCurrentInstance()` and its input connection;
  - display metrics and ids;
  - `keyboardModeFloat`;
  - the dual-screen preference.
- A `getTextBeforeCursor` that returns null is not modelled, and neither are editor calls that throw (`voice/VoiceRecognitionManager.kt:229-231`, `258-260`, `283-285`, `293-295`). The editor is a string of `char`. Kotlin's `length` counts UTF-16 code units, so a character outside the Basic Multilingual Plane counts once here but twice in the source.
- Errors that escape the recognizer's own catch blocks are not modelled, such as an `Error` thrown while the engine is created. So the manager's catch blocks (`voice/VoiceRecognitionManager.kt:103-118`, `161-165`, `180-182`) and the recognizer's `catch` around `stopRecognition` have no counterpart. `createSherpaNcnn` rethrows every failure as a plain `Exception`. The separate `EngineLinkError` outcome stands for a link error that reaches `initialize` unwrapped.
- The error messages passed to `onError` are replaced by an `ErrorKind`.
- `VoiceRecognitionResult.confidence`, which no code reads, is left out. So is the `PROCESSING` state, which nothing sets.
- Several functions are left out: `onVolumeChanged`; `getCurrentText`, `getLastRecognizedText` and `getRecognizer`, which are plain getters; `setListener`, because the listener is always the manager's; and `runDiagnosticTest`, which is disabled.
- `getPermissionRationale` returns a fixed text and is not modelled. The preference store is reduced to its one flag.
- `KeyboardManager.setData` has the same effect as `init`, so `Keyboards.KeyboardManager.Init` stands for both. The `instance` singleton is not modelled.
- Container construction is reduced to a value recording the class, the layout mask and a serial number that stands for object identity. The `updateSkbLayout`, `initView`, `resetToIdleState`, `updateCandidateBar` and `KeyboardLoaderUtil.clearKeyboardMap` calls are view work and are not modelled.
- Keyboards.IsInputBase: the container classes are not part of this model. QwertyContainer, T9TextContainer, HandwritingContainer and NumberContainer are taken to be the subclasses of InputBaseContainer.
- ImeDisplay.ImeService.ApplyRelayoutIfDisplayChanged: the modelled relayout cannot throw, so the caught-failure path is not modelled. As in the source, the last display state is recorded whether or not the relayout ran.
- ImeDisplay.ImeService.RefreshDebugLabel: the primary debug overlay is assumed to exist. The source skips the write when it is null.
- The window and view wiring of `onStartInputView` is not modelled:
  - `setInputView`;
  - the views' own `onStartInputView`;
  - the keyboard sizing in `EnvironmentSingleton` (float ratios);
  - key events and insets;
  - logging everywhere.
- SherpaRecognizer.SherpaVoiceRecognizer.ProcessFrame: the frame counter is unbounded. Kotlin's `Int` counter wraps only after 2^31 reads, about 6.8 years of recording at ten reads a second.
- An exception from `audioRecord.stop()`, `release()` or `recordingThread.join()` inside `stopRecognition` (`voice/SherpaVoiceRecognizer.kt:323-330`) is not modelled. It would be caught at line 348 and would skip the final result and the READY callback. The microphone is an abstract outcome here.
- The listener's callbacks are taken not to throw. The source catches such an exception in the capture loop: from the placeholder's `onResult` the outer catch ends the loop, and from a decoded result's `onResult` the result step's catch skips the endpoint bookkeeping after `currentText` has changed.
- ProcessedTextIsClean, ProcessIdempotent: the cleaned text is no longer promised to have no white space at its ends, or to be a fixed point of cleaning, for every input. The source's cleanup has neither property when the trimmed text starts or ends with next line (U+0085); both lemmas now state exactly when each holds.
