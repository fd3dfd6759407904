/** The values exchanged between the recognizer and its listener. */
module VoiceTypes {

  /** VoiceRecognitionState. */
  datatype RecognitionState = Idle | Initializing | Ready | Recording | Processing | Error | Destroyed

  /** VoiceRecognitionResult, without its `confidence`, which no code reads. */
  datatype RecognitionResult = RecognitionResult(text: string, isPartial: bool, isEndpoint: bool)

  /** The reasons the recognizer reports through `onError`. */
  datatype ErrorKind =
    | LibraryMissing   // native library not installed
    | LinkError        // UnsatisfiedLinkError while creating the engine
    | InitFailed       // any other exception while creating the engine
    | StartFailed      // the microphone could not be opened

  /** One call of a VoiceRecognitionListener callback, in the order the recognizer makes them. */
  datatype Event =
    | OnStateChanged(state: RecognitionState)
    | OnResult(result: RecognitionResult)
    | OnError(kind: ErrorKind)
}
