/**
 * The session state machine of InocencioVoiceAssistant (index.js:15-631),
 * written as values: a Session holds every field the class changes, and each
 * method or callback of the class is a function from the session before it
 * runs to the session after it. The class in assistant.dfy is proved to
 * perform exactly these steps; the properties of the controller are proved
 * here, about the functions.
 *
 * Everything outside the program becomes data:
 *   - each `setTimeout` callback is an entry of `timers`, keyed by the
 *     positive id the browser hands out, until it fires or is cleared;
 *   - calls into the recogniser, the recorder, the server and the audio
 *     element are appended to `effects`, in order;
 *   - whether `annyang.start` or the MediaRecorder set-up throws is a
 *     parameter of the step that calls it.
 */
module Session {
  import opened Wrappers
  import opened TextNormalization
  import opened WakeWord

  newtype byte = x: int | 0 <= x < 256

  /** The bytes of an audio Blob. */
  type Blob = seq<byte>

  type TimerId = nat

  /** STATES (index.js:7-13). */
  datatype State = Hibernating | Listening | Processing | Speaking | Error

  /** The callbacks the class hands to `setTimeout`. */
  datatype Timer =
    | FallbackRestart       // index.js:226-228: restartWakeWordDetection
    | RetryStart            // index.js:231: startWakeWordDetection after annyang.start threw
    | StartIfHibernating    // index.js:244-248
    | BeginCapture          // index.js:271-273: startQuestionCapture
    | StopRecording         // index.js:316-320
    | ResumeDetection       // index.js:412-414: startWakeWordDetection
    | RestartIfHibernating  // index.js:475-479
    | Recover               // index.js:488-492

  /** `mediaRecorder`: none yet, one whose state is "recording", or one stopped ("inactive"). */
  datatype Recorder = NoRecorder | Recording | Inactive

  /** Calls the class makes into the outside world, and the visual refresh of setState. */
  datatype Effect =
    | StartRecognizer       // annyang.start
    | AbortRecognizer       // annyang.abort
    | StartRecorder         // mediaRecorder.start
    | StopRecorder          // mediaRecorder.stop
    | PostVoice(audio: Blob) // POST /voice with the recorded audio
    | PlayAudio(audio: Blob) // responseAudio.play on the reply
    | Render(state: State)  // updateVisualState

  /** How init() ends (index.js:48-67): at the first step that fails, or with all of them done. */
  datatype InitOutcome =
    | LibraryMissing        // loadAnnyangLibrary rejected
    | NoAudioCapture        // checkPermissions: no getUserMedia
    | ApiUnreachable        // checkPermissions: GET /check failed
    | MicrophoneDenied      // setupAudioStream: getUserMedia rejected
    | Ready

  /** The fields of InocencioVoiceAssistant that change after construction. */
  datatype Session = Session(
    state: State,                    // currentState
    initialized: bool,               // isInitialized
    stream: bool,                    // audioStream != null
    annyang: bool,                   // window.annyang is loaded
    recorder: Recorder,              // mediaRecorder
    chunks: seq<Blob>,               // audioChunks
    phraseIndex: nat,                // phraseIndex
    listening: bool,                 // isListeningForWakeWord
    questionTimeout: Option<TimerId>,
    fallbackTimeout: Option<TimerId>,
    timers: map<TimerId, Timer>,     // pending setTimeout callbacks
    nextTimerId: TimerId,            // the id the next setTimeout returns
    rotating: bool,                  // the phrase-rotation interval is running
    uploads: nat,                    // POST /voice requests awaiting their reply
    response: Option<Blob>,          // responseAudio's source
    effects: seq<Effect>)

  /** this.phrases (index.js:37-43). */
  const PHRASES: seq<string> := [
    "Diga 'Inocêncio' para me acordar!",
    "Estou aqui para ajudar! Me chame pelo nome.",
    "Pronto para conversar quando você quiser!",
    "Aguardando seu comando... Diga meu nome!",
    "Inocêncio dormindo... Me acorde quando precisar!"
  ]

  const PHRASE_COUNT: nat := |PHRASES|

  const IGNORABLE_ERRORS: seq<string> := ["no-speech", "aborted"]
  const PERMISSION_ERRORS: seq<string> := ["not-allowed", "service-not-allowed"]

  /** What a session must satisfy between two events. */
  ghost predicate Valid(s: Session) {
    && s.phraseIndex < PHRASE_COUNT
    && 0 < s.nextTimerId
    && (forall id :: id in s.timers ==> 0 < id < s.nextTimerId)
    && (s.fallbackTimeout.Some? ==>
          s.fallbackTimeout.value in s.timers && s.timers[s.fallbackTimeout.value] == FallbackRestart)
    && (forall c :: c in s.chunks ==> |c| > 0)
    && (s.initialized ==> s.annyang && s.stream)
  }

  // ---------------------------------------------------------------------
  // The class's methods, one function each
  // ---------------------------------------------------------------------

  /** The fields as the constructor leaves them (index.js:17-28), before init() completes. */
  function Fresh(): Session {
    Session(Hibernating, false, false, false, NoRecorder, [], 0, false, None, None, map[], 1, false, 0, None, [])
  }

  /** `setTimeout(callback)`: the callback is pending under a new id. */
  function SetTimeout(s: Session, t: Timer): Session {
    s.(timers := s.timers[s.nextTimerId := t], nextTimerId := s.nextTimerId + 1)
  }

  /** `if (this.fallbackTimeout) { clearTimeout(...); this.fallbackTimeout = null; }` */
  function ClearFallback(s: Session): Session {
    if s.fallbackTimeout.Some? then
      s.(timers := s.timers - {s.fallbackTimeout.value}, fallbackTimeout := None)
    else
      s
  }

  /** setState (index.js:417-423). */
  function SetState(s: Session, to: State): Session {
    if s.state == to then s else s.(state := to, effects := s.effects + [Render(to)])
  }

  /** handleError (index.js:482-493): ERROR now, recovery in five seconds. */
  function HandleError(s: Session): Session {
    SetTimeout(SetState(s, Error), Recover)
  }

  /** startWakeWordDetection (index.js:218-233). `annyang.start` throws when
      `startFails`, and always when the library is not loaded. */
  function StartWakeWordDetection(s: Session, startFails: bool): Session {
    if s.listening then s
    else if startFails || !s.annyang then SetTimeout(s, RetryStart)
    else
      var started := s.(effects := s.effects + [StartRecognizer]);
      SetTimeout(started, FallbackRestart).(fallbackTimeout := Some(s.nextTimerId))
  }

  /** restartWakeWordDetection (index.js:235-249). */
  function RestartWakeWordDetection(s: Session): Session {
    var cleared := ClearFallback(s);
    SetTimeout(cleared.(effects := cleared.effects + [AbortRecognizer]), StartIfHibernating)
  }

  /** onWakeWordDetected (index.js:251-274); it has no guard on the state. */
  function OnWakeWordDetected(s: Session): Session {
    var aborted := s.(effects := s.effects + [AbortRecognizer], listening := false);
    SetTimeout(SetState(ClearFallback(aborted), Listening), BeginCapture)
  }

  /** startQuestionCapture (index.js:276-328): without a stream, an error;
      otherwise the chunks are reset and, unless creating or starting the
      MediaRecorder throws, recording starts with a stop in five seconds. */
  function StartQuestionCapture(s: Session, recorderFails: bool): Session {
    if !s.stream then HandleError(s)
    else
      var reset := s.(chunks := []);
      if recorderFails then HandleError(reset)
      else
        var recording := reset.(recorder := Recording, effects := reset.effects + [StartRecorder]);
        SetTimeout(recording, StopRecording).(questionTimeout := Some(s.nextTimerId))
  }

  /** The recorder's `ondataavailable` (index.js:297-301). */
  function OnRecorderData(s: Session, chunk: Blob): Session {
    if |chunk| > 0 then s.(chunks := s.chunks + [chunk]) else s
  }

  /** The bytes of `new Blob(audioChunks)`. */
  function Concat(chunks: seq<Blob>): Blob {
    if chunks == [] then [] else chunks[0] + Concat(chunks[1..])
  }

  /** processRecordedAudio up to the upload (index.js:330-360). */
  function ProcessRecordedAudio(s: Session): Session {
    if s.chunks == [] then HandleError(s)
    else
      var processing := SetState(s, Processing);
      processing.(effects := processing.effects + [PostVoice(Concat(s.chunks))], uploads := s.uploads + 1)
  }

  /** The recorder's `onstop` (index.js:303-305): the recorder is inactive
      by the time the event fires. */
  function OnRecorderStop(s: Session): Session {
    ProcessRecordedAudio(s.(recorder := Inactive))
  }

  /** The recorder's `onerror` (index.js:307-310): a recorder that fails has
      stopped recording. */
  function OnRecorderError(s: Session): Session {
    HandleError(s.(recorder := Inactive))
  }

  /** playResponse up to `play()` (index.js:378-399). */
  function PlayResponse(s: Session, audio: Blob): Session {
    var speaking := SetState(s, Speaking);
    speaking.(response := Some(audio), effects := speaking.effects + [PlayAudio(audio)])
  }

  /** The rest of processRecordedAudio (index.js:361-375): a failed request
      (`None`) is an error, a reply is played. */
  function OnVoiceReply(s: Session, reply: Option<Blob>): Session
    requires s.uploads > 0
  {
    var answered := s.(uploads := s.uploads - 1);
    if reply.None? then HandleError(answered) else PlayResponse(answered, reply.value)
  }

  /** onResponseEnded (index.js:406-415). */
  function OnResponseEnded(s: Session): Session {
    SetTimeout(SetState(s, Hibernating), ResumeDetection)
  }

  datatype RecognitionErrorKind = Ignorable | NeedsPermission | Transient

  /** The three branches of handleRecognitionError (index.js:459-480). */
  function ClassifyRecognitionError(code: string): (k: RecognitionErrorKind)
    ensures k == Ignorable <==> code in IGNORABLE_ERRORS
    ensures k == NeedsPermission <==> code in PERMISSION_ERRORS
    ensures k == Transient <==> code !in IGNORABLE_ERRORS + PERMISSION_ERRORS
  {
    if code in IGNORABLE_ERRORS then Ignorable
    else if code in PERMISSION_ERRORS then NeedsPermission
    else Transient
  }

  /** handleRecognitionError (index.js:459-480). */
  function HandleRecognitionError(s: Session, code: string): Session {
    match ClassifyRecognitionError(code)
    case Ignorable => s
    case NeedsPermission => HandleError(s)
    case Transient => SetTimeout(s, RestartIfHibernating)
  }

  /** processRecognitionResult (index.js:185-200). */
  function ProcessRecognitionResult(s: Session, phrases: Option<seq<string>>): Session {
    if WakeWordHeard(phrases) && s.state == Hibernating then OnWakeWordDetected(s) else s
  }

  /** The recogniser's `start` callback (index.js:153-156). */
  function OnRecognizerStart(s: Session): Session {
    s.(listening := true)
  }

  /** The recogniser's `end` callback (index.js:163-169). */
  function OnRecognizerEnd(s: Session): Session {
    var ended := s.(listening := false);
    if ended.state == Hibernating then RestartWakeWordDetection(ended) else ended
  }

  /** testSystem (index.js:611-614). Without the library, the `annyang.abort()`
      at the head of onWakeWordDetected throws and nothing changes. */
  function TestSystem(s: Session): Session {
    if s.annyang then OnWakeWordDetected(s) else s
  }

  /** forceActivation (index.js:616-620): one more `annyang.abort()` before
      onWakeWordDetected; without the library the first call throws. */
  function ForceActivation(s: Session): Session {
    if s.annyang then OnWakeWordDetected(s.(effects := s.effects + [AbortRecognizer])) else s
  }

  /** One tick of the phrase-rotation interval (index.js:561-569). */
  function RotatePhrase(s: Session): Session {
    if s.state == Hibernating && !s.listening then
      s.(phraseIndex := (s.phraseIndex + 1) % PHRASE_COUNT)
    else
      s
  }

  /** A pending timer fires: it leaves the table and its callback runs. */
  function OnTimer(s: Session, id: TimerId, startFails: bool, recorderFails: bool): Session
    requires id in s.timers
  {
    RunTimer(s.(timers := s.timers - {id}), s.timers[id], startFails, recorderFails)
  }

  /** The callbacks handed to setTimeout. */
  function RunTimer(t: Session, callback: Timer, startFails: bool, recorderFails: bool): Session {
    match callback
    case FallbackRestart => RestartWakeWordDetection(t)
    case RetryStart => StartWakeWordDetection(t, startFails)
    case StartIfHibernating => if t.state == Hibernating then StartWakeWordDetection(t, startFails) else t
    case BeginCapture => StartQuestionCapture(t, recorderFails)
    case StopRecording => if t.recorder == Recording then t.(recorder := Inactive, effects := t.effects + [StopRecorder]) else t
    case ResumeDetection => StartWakeWordDetection(t, startFails)
    case RestartIfHibernating => if t.state == Hibernating then RestartWakeWordDetection(t) else t
    case Recover => StartWakeWordDetection(SetState(t, Hibernating), startFails)
  }

  /** startSystem (index.js:212-216). */
  function StartSystem(s: Session, startFails: bool): Session {
    StartWakeWordDetection(SetState(s, Hibernating), startFails).(rotating := true)
  }

  /** init() (index.js:48-67), from the fresh fields to the end of its last step. */
  function Initialize(outcome: InitOutcome, startFails: bool): Session {
    match outcome
    case LibraryMissing => HandleError(Fresh())
    case Ready => StartSystem(Fresh().(annyang := true, stream := true), startFails).(initialized := true)
    case _ => HandleError(Fresh().(annyang := true))
  }

  datatype SystemStatus = SystemStatus(state: State, initialized: bool, listening: bool, annyang: bool, stream: bool)

  /** getSystemStatus (index.js:622-630). */
  function Status(s: Session): SystemStatus {
    SystemStatus(s.state, s.initialized, s.listening, s.annyang, s.stream)
  }

  // ---------------------------------------------------------------------
  // Events
  // ---------------------------------------------------------------------

  /** What can happen to a running assistant: a callback of the recogniser,
      the recorder, the server or the audio element, a pending timer, or a
      tick of the rotation interval. */
  datatype Event =
    | RecognizerStart
    | RecognizerEnd
    | RecognizerResult(phrases: Option<seq<string>>)
    | RecognizerError(code: string)
    | CommandHeard            // one of the phrases of setupAnnyangCommands
    | RecorderData(chunk: Blob)
    | RecorderStop
    | RecorderError
    | VoiceReply(reply: Option<Blob>)
    | PlaybackEnd
    | PlaybackError           // the element's onerror, or play() rejecting
    | TimerFires(id: TimerId, startFails: bool, recorderFails: bool)
    | RotationTick
    | TestRequested           // window.testInocencio
    | ActivationForced        // window.forceActivation

  /** The recogniser's callbacks exist only once init() has registered them,
      the recorder's only once there is a recorder, a reply only for a
      request in flight, playback events only once a source is set; the
      page's two helpers can be called at any time. */
  predicate Enabled(s: Session, e: Event) {
    match e
    case RecognizerStart => s.initialized
    case RecognizerEnd => s.initialized
    case RecognizerResult(_) => s.initialized
    case RecognizerError(_) => s.initialized
    case CommandHeard => s.initialized
    case RecorderData(_) => s.recorder != NoRecorder
    case RecorderStop => s.recorder != NoRecorder
    case RecorderError => s.recorder != NoRecorder
    case VoiceReply(_) => s.uploads > 0
    case PlaybackEnd => s.response.Some?
    case PlaybackError => s.response.Some?
    case TimerFires(id, _, _) => id in s.timers
    case RotationTick => s.rotating
    case TestRequested => true
    case ActivationForced => true
  }

  function Step(s: Session, e: Event): Session
    requires Enabled(s, e)
  {
    match e
    case RecognizerStart => OnRecognizerStart(s)
    case RecognizerEnd => OnRecognizerEnd(s)
    case RecognizerResult(phrases) => ProcessRecognitionResult(s, phrases)
    case RecognizerError(code) => HandleRecognitionError(s, code)
    case CommandHeard => OnWakeWordDetected(s)
    case RecorderData(chunk) => OnRecorderData(s, chunk)
    case RecorderStop => OnRecorderStop(s)
    case RecorderError => OnRecorderError(s)
    case VoiceReply(reply) => OnVoiceReply(s, reply)
    case PlaybackEnd => OnResponseEnded(s)
    case PlaybackError => HandleError(s)
    case TimerFires(id, startFails, recorderFails) => OnTimer(s, id, startFails, recorderFails)
    case RotationTick => RotatePhrase(s)
    case TestRequested => TestSystem(s)
    case ActivationForced => ForceActivation(s)
  }

  // ---------------------------------------------------------------------
  // The invariant
  // ---------------------------------------------------------------------

  lemma SetTimeoutKeepsValid(s: Session, t: Timer)
    requires Valid(s)
    ensures Valid(SetTimeout(s, t))
    ensures s.nextTimerId !in s.timers
  {
  }

  lemma SetStateKeepsValid(s: Session, to: State)
    requires Valid(s)
    ensures Valid(SetState(s, to))
  {
  }

  lemma HandleErrorKeepsValid(s: Session)
    requires Valid(s)
    ensures Valid(HandleError(s))
  {
    SetStateKeepsValid(s, Error);
    SetTimeoutKeepsValid(SetState(s, Error), Recover);
  }

  lemma StartWakeWordDetectionKeepsValid(s: Session, startFails: bool)
    requires Valid(s)
    ensures Valid(StartWakeWordDetection(s, startFails))
  {
    SetTimeoutKeepsValid(s, RetryStart);
    SetTimeoutKeepsValid(s.(effects := s.effects + [StartRecognizer]), FallbackRestart);
  }

  /** Clearing the fallback only needs the rest of the invariant: the
      fallback's own timer may already have left the table. */
  lemma ClearFallbackKeepsValid(s: Session)
    requires Valid(s.(fallbackTimeout := None))
    ensures Valid(ClearFallback(s))
  {
  }

  lemma RestartKeepsValid(s: Session)
    requires Valid(s.(fallbackTimeout := None))
    ensures Valid(RestartWakeWordDetection(s))
  {
    ClearFallbackKeepsValid(s);
    var cleared := ClearFallback(s);
    SetTimeoutKeepsValid(cleared.(effects := cleared.effects + [AbortRecognizer]), StartIfHibernating);
  }

  lemma OnWakeWordDetectedKeepsValid(s: Session)
    requires Valid(s)
    ensures Valid(OnWakeWordDetected(s))
  {
    var aborted := s.(effects := s.effects + [AbortRecognizer], listening := false);
    ClearFallbackKeepsValid(aborted);
    SetStateKeepsValid(ClearFallback(aborted), Listening);
    SetTimeoutKeepsValid(SetState(ClearFallback(aborted), Listening), BeginCapture);
  }

  lemma StartQuestionCaptureKeepsValid(s: Session, recorderFails: bool)
    requires Valid(s)
    ensures Valid(StartQuestionCapture(s, recorderFails))
  {
    var reset := s.(chunks := []);
    HandleErrorKeepsValid(s);
    HandleErrorKeepsValid(reset);
    SetTimeoutKeepsValid(reset.(recorder := Recording, effects := reset.effects + [StartRecorder]), StopRecording);
  }

  /** The table without a fired timer; the fallback id only matters to the
      FallbackRestart case, which clears it. */
  lemma RemoveTimerKeepsValid(s: Session, id: TimerId)
    requires Valid(s) && id in s.timers
    ensures Valid(s.(timers := s.timers - {id}, fallbackTimeout := None))
    ensures s.timers[id] != FallbackRestart ==> Valid(s.(timers := s.timers - {id}))
  {
  }

  lemma RunTimerKeepsValid(t: Session, callback: Timer, startFails: bool, recorderFails: bool)
    requires Valid(t.(fallbackTimeout := None))
    requires callback != FallbackRestart ==> Valid(t)
    ensures Valid(RunTimer(t, callback, startFails, recorderFails))
  {
    match callback
    case FallbackRestart => RestartKeepsValid(t);
    case RetryStart => StartWakeWordDetectionKeepsValid(t, startFails);
    case StartIfHibernating => StartWakeWordDetectionKeepsValid(t, startFails);
    case BeginCapture => StartQuestionCaptureKeepsValid(t, recorderFails);
    case StopRecording =>
    case ResumeDetection => StartWakeWordDetectionKeepsValid(t, startFails);
    case RestartIfHibernating => RestartKeepsValid(t);
    case Recover =>
      SetStateKeepsValid(t, Hibernating);
      StartWakeWordDetectionKeepsValid(SetState(t, Hibernating), startFails);
  }

  lemma OnTimerKeepsValid(s: Session, id: TimerId, startFails: bool, recorderFails: bool)
    requires Valid(s) && id in s.timers
    ensures Valid(OnTimer(s, id, startFails, recorderFails))
  {
    RemoveTimerKeepsValid(s, id);
    RunTimerKeepsValid(s.(timers := s.timers - {id}), s.timers[id], startFails, recorderFails);
  }

  lemma OnRecognizerEndKeepsValid(s: Session)
    requires Valid(s)
    ensures Valid(OnRecognizerEnd(s))
  {
    var ended := s.(listening := false);
    if ended.state == Hibernating { RestartKeepsValid(ended); }
  }

  lemma ProcessRecognitionResultKeepsValid(s: Session, phrases: Option<seq<string>>)
    requires Valid(s)
    ensures Valid(ProcessRecognitionResult(s, phrases))
  {
    if WakeWordHeard(phrases) && s.state == Hibernating { OnWakeWordDetectedKeepsValid(s); }
  }

  lemma HandleRecognitionErrorKeepsValid(s: Session, code: string)
    requires Valid(s)
    ensures Valid(HandleRecognitionError(s, code))
  {
    HandleErrorKeepsValid(s);
    SetTimeoutKeepsValid(s, RestartIfHibernating);
  }

  lemma ProcessRecordedAudioKeepsValid(s: Session)
    requires Valid(s)
    ensures Valid(ProcessRecordedAudio(s))
  {
    HandleErrorKeepsValid(s);
    SetStateKeepsValid(s, Processing);
  }

  lemma OnRecorderStopKeepsValid(s: Session)
    requires Valid(s)
    ensures Valid(OnRecorderStop(s))
  {
    ProcessRecordedAudioKeepsValid(s.(recorder := Inactive));
  }

  lemma OnRecorderErrorKeepsValid(s: Session)
    requires Valid(s)
    ensures Valid(OnRecorderError(s))
  {
    HandleErrorKeepsValid(s.(recorder := Inactive));
  }

  lemma HelpersKeepValid(s: Session)
    requires Valid(s)
    ensures Valid(TestSystem(s)) && Valid(ForceActivation(s))
  {
    OnWakeWordDetectedKeepsValid(s);
    OnWakeWordDetectedKeepsValid(s.(effects := s.effects + [AbortRecognizer]));
  }

  lemma OnVoiceReplyKeepsValid(s: Session, reply: Option<Blob>)
    requires Valid(s) && s.uploads > 0
    ensures Valid(OnVoiceReply(s, reply))
  {
    var answered := s.(uploads := s.uploads - 1);
    HandleErrorKeepsValid(answered);
    SetStateKeepsValid(answered, Speaking);
  }

  lemma OnResponseEndedKeepsValid(s: Session)
    requires Valid(s)
    ensures Valid(OnResponseEnded(s))
  {
    SetStateKeepsValid(s, Hibernating);
    SetTimeoutKeepsValid(SetState(s, Hibernating), ResumeDetection);
  }

  /** Every event keeps the invariant: the fallback id, when set, names a
      pending FallbackRestart; timer ids are positive and fresh; the kept
      chunks are all non-empty; the phrase index stays in bounds. */
  lemma StepKeepsValid(s: Session, e: Event)
    requires Valid(s) && Enabled(s, e)
    ensures Valid(Step(s, e))
  {
    match e
    case RecognizerStart =>
    case RecognizerEnd => OnRecognizerEndKeepsValid(s);
    case RecognizerResult(phrases) => ProcessRecognitionResultKeepsValid(s, phrases);
    case RecognizerError(code) => HandleRecognitionErrorKeepsValid(s, code);
    case CommandHeard => OnWakeWordDetectedKeepsValid(s);
    case RecorderData(chunk) =>
    case RecorderStop => OnRecorderStopKeepsValid(s);
    case RecorderError => OnRecorderErrorKeepsValid(s);
    case VoiceReply(reply) => OnVoiceReplyKeepsValid(s, reply);
    case PlaybackEnd => OnResponseEndedKeepsValid(s);
    case PlaybackError => HandleErrorKeepsValid(s);
    case TimerFires(id, startFails, recorderFails) => OnTimerKeepsValid(s, id, startFails, recorderFails);
    case RotationTick =>
    case TestRequested => HelpersKeepValid(s);
    case ActivationForced => HelpersKeepValid(s);
  }

  /** Whatever init() runs into, it leaves a valid session. */
  lemma InitializeKeepsValid(outcome: InitOutcome, startFails: bool)
    ensures Valid(Initialize(outcome, startFails))
  {
    var ready := Fresh().(annyang := true, stream := true);
    HandleErrorKeepsValid(Fresh());
    HandleErrorKeepsValid(Fresh().(annyang := true));
    SetStateKeepsValid(ready, Hibernating);
    StartWakeWordDetectionKeepsValid(SetState(ready, Hibernating), startFails);
  }

  // ---------------------------------------------------------------------
  // What the controller promises
  // ---------------------------------------------------------------------

  /** setState changes nothing when the state is already the target; otherwise it moves to it and refreshes the view. */
  lemma SetStateNoChangeIff(s: Session, to: State)
    ensures SetState(s, to).state == to
    ensures SetState(s, to) == s <==> s.state == to
    ensures s.state != to ==> SetState(s, to).effects == s.effects + [Render(to)]
  {
    if s.state != to {
      assert SetState(s, to).state != s.state;
    }
  }

  /** After a wake word, from whatever state: the recogniser is aborted, the
      flag is down, the fallback is cleared, the state is LISTENING and the
      question capture is pending. */
  lemma WakeWordDetectedOutcome(s: Session)
    requires Valid(s)
    ensures var o := OnWakeWordDetected(s);
      && o.state == Listening
      && !o.listening
      && o.fallbackTimeout == None
      && (s.fallbackTimeout.Some? ==> s.fallbackTimeout.value !in o.timers)
      && s.nextTimerId in o.timers && o.timers[s.nextTimerId] == BeginCapture
      && o.effects[|s.effects|] == AbortRecognizer
      && o.chunks == s.chunks && o.uploads == s.uploads && o.phraseIndex == s.phraseIndex
  {
    var aborted := s.(effects := s.effects + [AbortRecognizer], listening := false);
    SetStateNoChangeIff(ClearFallback(aborted), Listening);
  }

  /** A command from the recogniser's table needs no state guard: even while
      PROCESSING or SPEAKING it starts a new question. */
  lemma CommandWakesFromAnyState(s: Session)
    requires Valid(s) && s.initialized
    ensures Step(s, CommandHeard).state == Listening
    ensures s.nextTimerId in Step(s, CommandHeard).timers
    ensures Step(s, CommandHeard).timers[s.nextTimerId] == BeginCapture
  {
    WakeWordDetectedOutcome(s);
  }

  /** A recognition result acts only in HIBERNATING and only when the first
      alternative, normalised, contains the normalised name. */
  lemma RecognitionResultActsIff(s: Session, phrases: Option<seq<string>>)
    ensures ProcessRecognitionResult(s, phrases) != s <==>
      && s.state == Hibernating
      && phrases.Some? && |phrases.value| > 0
      && Occurs(Normalize(phrases.value[0]), PLAIN)
    ensures ProcessRecognitionResult(s, phrases) != s ==>
      ProcessRecognitionResult(s, phrases) == OnWakeWordDetected(s)
  {
    WakeWordHeardIff(phrases);
    assert |OnWakeWordDetected(s).effects| > |s.effects|;
  }

  /** The three answers to a recogniser error: ignore, go to ERROR with a
      recovery pending, or schedule a restart that is conditional on HIBERNATING. */
  lemma RecognitionErrorOutcomes(s: Session, code: string)
    ensures code in IGNORABLE_ERRORS ==> HandleRecognitionError(s, code) == s
    ensures code in PERMISSION_ERRORS ==>
      var o := HandleRecognitionError(s, code);
      o.state == Error && o.timers == s.timers[s.nextTimerId := Recover]
    ensures code !in IGNORABLE_ERRORS + PERMISSION_ERRORS ==>
      var o := HandleRecognitionError(s, code);
      o.state == s.state && o.timers == s.timers[s.nextTimerId := RestartIfHibernating]
      && o.effects == s.effects && o.fallbackTimeout == s.fallbackTimeout
  {
    var k := ClassifyRecognitionError(code);
    if k == NeedsPermission {
      SetStateNoChangeIff(s, Error);
    }
  }

  /** The scheduled starts and restarts that test the state do nothing once
      the assistant has left HIBERNATING. */
  lemma GuardedTimersNeedHibernating(s: Session, id: TimerId, startFails: bool, recorderFails: bool)
    requires id in s.timers && s.timers[id] in {StartIfHibernating, RestartIfHibernating}
    ensures s.state != Hibernating ==>
      OnTimer(s, id, startFails, recorderFails) == s.(timers := s.timers - {id})
    ensures s.state == Hibernating && s.timers[id] == StartIfHibernating ==>
      OnTimer(s, id, startFails, recorderFails) == StartWakeWordDetection(s.(timers := s.timers - {id}), startFails)
    ensures s.state == Hibernating && s.timers[id] == RestartIfHibernating ==>
      OnTimer(s, id, startFails, recorderFails) == RestartWakeWordDetection(s.(timers := s.timers - {id}))
  {
  }

  /** startWakeWordDetection is a no-op while the recogniser listens; else it
      either starts the recogniser with a fresh fallback restart, or, when
      the start throws, schedules a retry and leaves the fallback alone. */
  lemma StartDetectionOutcome(s: Session, startFails: bool)
    ensures s.listening ==> StartWakeWordDetection(s, startFails) == s
    ensures !s.listening && (startFails || !s.annyang) ==>
      var o := StartWakeWordDetection(s, startFails);
      o.timers == s.timers[s.nextTimerId := RetryStart] && o.effects == s.effects
      && o.fallbackTimeout == s.fallbackTimeout
    ensures !s.listening && !startFails && s.annyang ==>
      var o := StartWakeWordDetection(s, startFails);
      o.fallbackTimeout == Some(s.nextTimerId) && o.timers == s.timers[s.nextTimerId := FallbackRestart]
      && o.effects == s.effects + [StartRecognizer] && o.state == s.state
  {
  }

  /** restartWakeWordDetection cancels the pending fallback, aborts the
      recogniser and schedules a start that will run only in HIBERNATING. */
  lemma RestartClearsFallback(s: Session)
    requires Valid(s)
    ensures var o := RestartWakeWordDetection(s);
      && o.fallbackTimeout == None
      && (s.fallbackTimeout.Some? ==> s.fallbackTimeout.value !in o.timers)
      && s.nextTimerId in o.timers && o.timers[s.nextTimerId] == StartIfHibernating
      && o.effects == s.effects + [AbortRecognizer]
      && o.state == s.state
  {
    SetTimeoutKeepsValid(s, StartIfHibernating);
  }

  /** A new question throws away the chunks of the previous one; without an
      audio stream it is an error instead. When the recorder can be set up,
      it starts recording and the five-second stop is armed in
      questionTimeout. */
  lemma CaptureResetsChunks(s: Session, recorderFails: bool)
    ensures s.stream ==> StartQuestionCapture(s, recorderFails).chunks == []
    ensures !s.stream ==> StartQuestionCapture(s, recorderFails).state == Error
    ensures StartQuestionCapture(s, recorderFails).recorder == Recording <==>
      (s.stream && !recorderFails) || s.recorder == Recording
    ensures s.stream && !recorderFails ==>
      var o := StartQuestionCapture(s, recorderFails);
      && o.recorder == Recording
      && o.effects == s.effects + [StartRecorder]
      && o.questionTimeout == Some(s.nextTimerId)
      && o.timers == s.timers[s.nextTimerId := StopRecording]
      && o.state == s.state
  {
  }

  /** The five-second stop finds the recorder still recording, stops it and
      changes nothing else. */
  lemma StopTimerStops(s: Session, id: TimerId, startFails: bool, recorderFails: bool)
    requires id in s.timers && s.timers[id] == StopRecording && s.recorder == Recording
    ensures var o := OnTimer(s, id, startFails, recorderFails);
      && o.recorder == Inactive
      && o.effects == s.effects + [StopRecorder]
      && o.state == s.state && o.chunks == s.chunks
      && o.timers == s.timers - {id}
  {
  }

  /** The chunks that ondataavailable keeps: the non-empty ones. */
  function NonEmpty(arrivals: seq<Blob>): (r: seq<Blob>)
    ensures forall c :: c in r ==> |c| > 0
    ensures |r| <= |arrivals|
  {
    if arrivals == [] then []
    else if |arrivals[0]| > 0 then [arrivals[0]] + NonEmpty(arrivals[1..])
    else NonEmpty(arrivals[1..])
  }

  /** A run of ondataavailable events, in arrival order. */
  function ReceiveAll(s: Session, arrivals: seq<Blob>): Session
    decreases |arrivals|
  {
    if arrivals == [] then s else ReceiveAll(OnRecorderData(s, arrivals[0]), arrivals[1..])
  }

  /** The recorder's data accumulate in order, the empty blobs skipped, and
      nothing else changes. */
  lemma {:induction false} ReceiveAllAppends(s: Session, arrivals: seq<Blob>)
    ensures ReceiveAll(s, arrivals) == s.(chunks := s.chunks + NonEmpty(arrivals))
    decreases |arrivals|
  {
    if arrivals != [] {
      var next := OnRecorderData(s, arrivals[0]);
      ReceiveAllAppends(next, arrivals[1..]);
      if |arrivals[0]| > 0 {
        assert s.chunks + NonEmpty(arrivals) == s.chunks + [arrivals[0]] + NonEmpty(arrivals[1..]);
      }
    }
  }

  lemma {:induction false} ConcatAppend(a: seq<Blob>, b: seq<Blob>)
    ensures Concat(a + b) == Concat(a) + Concat(b)
    decreases |a|
  {
    if a != [] {
      assert (a + b)[0] == a[0] && (a + b)[1..] == a[1..] + b;
      ConcatAppend(a[1..], b);
      assert Concat(a + b) == a[0] + (Concat(a[1..]) + Concat(b));
    } else {
      assert a + b == b;
    }
  }

  /** Skipping the empty blobs does not change the uploaded audio. */
  lemma {:induction false} NonEmptyKeepsAudio(arrivals: seq<Blob>)
    ensures Concat(NonEmpty(arrivals)) == Concat(arrivals)
    decreases |arrivals|
  {
    if arrivals != [] {
      NonEmptyKeepsAudio(arrivals[1..]);
      if |arrivals[0]| > 0 {
        ConcatAppend([arrivals[0]], NonEmpty(arrivals[1..]));
        assert Concat([arrivals[0]]) == arrivals[0] + Concat([]);
      }
    }
  }

  /** Kept chunks are non-empty, so their concatenation is empty only when there are none. */
  lemma {:induction false} ConcatOfNonEmptyChunks(chunks: seq<Blob>)
    requires forall c :: c in chunks ==> |c| > 0
    ensures Concat(chunks) == [] <==> chunks == []
    ensures |Concat(chunks)| >= |chunks|
    decreases |chunks|
  {
    if chunks != [] {
      assert chunks[0] in chunks;
      forall c | c in chunks[1..] ensures |c| > 0 { assert c in chunks; }
      ConcatOfNonEmptyChunks(chunks[1..]);
    }
  }

  /** The end of a recording: with no chunks, ERROR and no request; with
      chunks, PROCESSING and one POST of exactly the recorded audio. */
  lemma RecordingOutcome(s: Session)
    requires Valid(s)
    ensures s.chunks == [] ==>
      var o := ProcessRecordedAudio(s);
      o.state == Error && o.uploads == s.uploads
      && (forall i :: |s.effects| <= i < |o.effects| ==> !o.effects[i].PostVoice?)
      && s.nextTimerId in o.timers && o.timers[s.nextTimerId] == Recover
    ensures s.chunks != [] ==>
      var o := ProcessRecordedAudio(s);
      o.state == Processing && o.uploads == s.uploads + 1
      && o.effects[|o.effects| - 1] == PostVoice(Concat(s.chunks))
      && Concat(s.chunks) != []
  {
    ConcatOfNonEmptyChunks(s.chunks);
    SetStateNoChangeIff(s, Error);
  }

  /** A whole recording, from the start of the capture to the recorder's
      stop: the upload carries every byte the recorder delivered. The
      capture may replace a recorder that is still recording. */
  lemma RecordingUploadsEverything(s: Session, arrivals: seq<Blob>)
    requires Valid(s) && s.stream
    ensures var recorded := ReceiveAll(StartQuestionCapture(s, false), arrivals);
      var o := OnRecorderStop(recorded);
      && o.recorder == Inactive
      && (Concat(arrivals) == [] ==> o.state == Error && o.uploads == s.uploads)
      && (Concat(arrivals) != [] ==>
            o.state == Processing && o.uploads == s.uploads + 1
            && o.effects[|o.effects| - 1] == PostVoice(Concat(arrivals)))
  {
    var stopped := CaptureAndReceive(s, arrivals);
    NonEmptyKeepsAudio(arrivals);
    ConcatOfNonEmptyChunks(NonEmpty(arrivals));
    assert Concat(stopped.chunks) == Concat(arrivals);
    assert stopped.chunks == [] <==> Concat(arrivals) == [];
    RecordingOutcome(stopped);
    ProcessingKeepsRecorder(stopped);
  }

  /** The session a capture and its data leave to the recorder's stop. */
  lemma CaptureAndReceive(s: Session, arrivals: seq<Blob>) returns (stopped: Session)
    requires Valid(s) && s.stream
    ensures Valid(stopped) && stopped.recorder == Inactive
    ensures stopped.chunks == NonEmpty(arrivals) && stopped.uploads == s.uploads
    ensures OnRecorderStop(ReceiveAll(StartQuestionCapture(s, false), arrivals)) == ProcessRecordedAudio(stopped)
  {
    var started := StartQuestionCapture(s, false);
    StartQuestionCaptureKeepsValid(s, false);
    ReceiveAllAppends(started, arrivals);
    var recorded := ReceiveAll(started, arrivals);
    stopped := started.(chunks := NonEmpty(arrivals), recorder := Inactive);
    assert recorded.(recorder := Inactive) == stopped;
    assert stopped.phraseIndex == started.phraseIndex;
    assert Valid(stopped);
  }

  /** A recorder that stops or fails is no longer recording, so the pending
      five-second stop finds it inactive and calls nothing. */
  lemma RecorderEndsRecording(s: Session, id: TimerId, startFails: bool, recorderFails: bool)
    ensures OnRecorderStop(s).recorder == Inactive
    ensures var o := OnRecorderError(s);
      && o.recorder == Inactive && o.state == Error
      && o.chunks == s.chunks && o.uploads == s.uploads
    ensures var o := OnRecorderError(s);
      id in o.timers && o.timers[id] == StopRecording ==>
        OnTimer(o, id, startFails, recorderFails) == o.(timers := o.timers - {id})
    ensures var o := OnRecorderStop(s);
      id in o.timers && o.timers[id] == StopRecording ==>
        OnTimer(o, id, startFails, recorderFails) == o.(timers := o.timers - {id})
  {
    var e := OnRecorderError(s);
    ErrorKeepsRecording(s.(recorder := Inactive));
    ProcessingKeepsRecorder(s.(recorder := Inactive));
    if id in e.timers && e.timers[id] == StopRecording {
      StopTimerIdle(e, id, startFails, recorderFails);
    }
    var st := OnRecorderStop(s);
    if id in st.timers && st.timers[id] == StopRecording {
      StopTimerIdle(st, id, startFails, recorderFails);
    }
  }

  /** handleError changes the state, the effects and the timers only. */
  lemma ErrorKeepsRecording(s: Session)
    ensures var o := HandleError(s);
      && o.state == Error && o.recorder == s.recorder && o.chunks == s.chunks && o.uploads == s.uploads
  {
  }

  lemma ProcessingKeepsRecorder(s: Session)
    ensures ProcessRecordedAudio(s).recorder == s.recorder
  {
  }

  /** A pending stop that finds the recorder inactive only leaves the timer table. */
  lemma StopTimerIdle(o: Session, id: TimerId, startFails: bool, recorderFails: bool)
    requires id in o.timers && o.timers[id] == StopRecording && o.recorder == Inactive
    ensures OnTimer(o, id, startFails, recorderFails) == o.(timers := o.timers - {id})
  {
  }

  /** The server's reply: a failed request or a non-ok answer enters ERROR
      with a recovery pending and plays nothing; an answer is played,
      SPEAKING, as the response's source. Either way the request is no
      longer in flight. */
  lemma VoiceReplyOutcome(s: Session, reply: Option<Blob>)
    requires s.uploads > 0
    ensures var o := OnVoiceReply(s, reply);
      o.uploads == s.uploads - 1 && o.chunks == s.chunks && o.recorder == s.recorder
    ensures reply.None? ==>
      var o := OnVoiceReply(s, reply);
      && o.state == Error
      && o.timers == s.timers[s.nextTimerId := Recover]
      && o.response == s.response
      && (forall i :: |s.effects| <= i < |o.effects| ==> !o.effects[i].PlayAudio?)
    ensures reply.Some? ==>
      var o := OnVoiceReply(s, reply);
      && o.state == Speaking
      && o.response == reply
      && o.effects[|o.effects| - 1] == PlayAudio(reply.value)
      && o.timers == s.timers
  {
    var answered := s.(uploads := s.uploads - 1);
    SetStateNoChangeIff(answered, Error);
  }

  /** The end of playback returns to HIBERNATING from any state and
      schedules a start of the recogniser that, unlike the other scheduled
      starts, does not test the state. */
  lemma ResponseEndedOutcome(s: Session, startFails: bool, recorderFails: bool)
    ensures var o := OnResponseEnded(s);
      && o.state == Hibernating
      && o.timers == s.timers[s.nextTimerId := ResumeDetection]
      && o.listening == s.listening && o.fallbackTimeout == s.fallbackTimeout
      && OnTimer(o, s.nextTimerId, startFails, recorderFails)
           == StartWakeWordDetection(o.(timers := o.timers - {s.nextTimerId}), startFails)
  {
    var o := OnResponseEnded(s);
    assert o.timers - {s.nextTimerId} == s.timers - {s.nextTimerId};
  }

  /** When the recogniser ends, the listening flag goes down, and a restart
      follows exactly when the assistant is HIBERNATING. */
  lemma RecognizerEndOutcome(s: Session)
    ensures !OnRecognizerEnd(s).listening
    ensures OnRecognizerEnd(s).effects != s.effects <==> s.state == Hibernating
    ensures s.state != Hibernating ==> OnRecognizerEnd(s) == s.(listening := false)
    ensures s.state == Hibernating ==>
      var o := OnRecognizerEnd(s);
      && o.effects == s.effects + [AbortRecognizer]
      && o.fallbackTimeout == None
      && s.nextTimerId in o.timers && o.timers[s.nextTimerId] == StartIfHibernating
  {
    if s.state == Hibernating {
      assert |OnRecognizerEnd(s).effects| > |s.effects|;
    }
  }

  /** The page's helpers start a question from any state once the library is
      loaded, forceActivation after one more abort; without the library they
      throw and change nothing. */
  lemma HelpersOutcome(s: Session)
    ensures !s.annyang ==> TestSystem(s) == s && ForceActivation(s) == s
    ensures s.annyang ==> TestSystem(s) == OnWakeWordDetected(s)
    ensures s.annyang ==>
      var o := ForceActivation(s);
      && o.state == Listening && !o.listening && o.fallbackTimeout == None
      && o.effects[|s.effects|] == AbortRecognizer && o.effects[|s.effects| + 1] == AbortRecognizer
      && s.nextTimerId in o.timers && o.timers[s.nextTimerId] == BeginCapture
  {
    var aborted := s.(effects := s.effects + [AbortRecognizer]);
    SetStateNoChangeIff(ClearFallback(aborted.(effects := aborted.effects + [AbortRecognizer], listening := false)), Listening);
  }

  /** The rotation keeps the index in bounds, and advances it, by one modulo
      five, exactly when hibernating with the recogniser not listening. */
  lemma RotationOutcome(s: Session)
    requires s.phraseIndex < PHRASE_COUNT
    ensures RotatePhrase(s).phraseIndex < PHRASE_COUNT
    ensures RotatePhrase(s).phraseIndex != s.phraseIndex <==> s.state == Hibernating && !s.listening
    ensures RotatePhrase(s) == s.(phraseIndex := RotatePhrase(s).phraseIndex)
    ensures s.state == Hibernating && !s.listening ==>
      RotatePhrase(s).phraseIndex == (s.phraseIndex + 1) % PHRASE_COUNT
  {
  }

  function Rotations(s: Session, n: nat): Session
    decreases n
  {
    if n == 0 then s else Rotations(RotatePhrase(s), n - 1)
  }

  /** While idle, five ticks show every phrase once and come back to the first. */
  lemma {:induction false} RotationCycles(s: Session, n: nat)
    requires s.phraseIndex < PHRASE_COUNT && s.state == Hibernating && !s.listening
    ensures Rotations(s, n).phraseIndex == (s.phraseIndex + n) % PHRASE_COUNT
    ensures Rotations(s, PHRASE_COUNT) == s
  {
    RotationsAdvance(s, n);
    RotationsAdvance(s, PHRASE_COUNT);
    assert Rotations(s, PHRASE_COUNT) == s.(phraseIndex := Rotations(s, PHRASE_COUNT).phraseIndex);
  }

  lemma {:induction false} RotationsAdvance(s: Session, n: nat)
    requires s.phraseIndex < PHRASE_COUNT && s.state == Hibernating && !s.listening
    ensures Rotations(s, n) == s.(phraseIndex := (s.phraseIndex + n) % PHRASE_COUNT)
    decreases n
  {
    if n > 0 {
      var next := RotatePhrase(s);
      RotationsAdvance(next, n - 1);
      assert (next.phraseIndex + (n - 1)) % PHRASE_COUNT == (s.phraseIndex + n) % PHRASE_COUNT;
    }
  }

  /** init() ends either in a running system (HIBERNATING, the rotation on,
      and, when annyang.start does not throw, a fallback pending) or in
      ERROR with a recovery pending and nothing else started. */
  lemma InitializeOutcome(outcome: InitOutcome, startFails: bool)
    ensures var s := Initialize(outcome, startFails);
      && Valid(s)
      && (s.initialized <==> outcome == Ready)
      && (outcome == Ready ==>
            s.state == Hibernating && s.rotating && !s.listening && (s.fallbackTimeout.Some? <==> !startFails))
      && (outcome != Ready ==> s.state == Error && !s.rotating && s.timers == map[1 := Recover])
  {
    InitializeKeepsValid(outcome, startFails);
  }

  /** A denied microphone while hibernating: ERROR, and a recovery pending,
      while the fallback restart started before stays pending. */
  lemma DeniedRecognitionKeepsFallback(s: Session, code: string)
    requires Valid(s) && s.initialized && s.state == Hibernating && !s.listening
    requires s.fallbackTimeout.Some? && code in PERMISSION_ERRORS
    ensures var denied := Step(s, RecognizerError(code));
      && denied.state == Error && !denied.listening && denied.annyang
      && denied.timers == s.timers[s.nextTimerId := Recover]
      && denied.fallbackTimeout == s.fallbackTimeout
      && denied.nextTimerId == s.nextTimerId + 1
  {
    RecognitionErrorOutcomes(s, code);
  }

  /** The recovery starts the recogniser again under a new fallback without
      clearing the old one, so two restarts are pending. */
  lemma RecoveryLeavesOldFallback(d: Session, r: TimerId, first: TimerId, startFails: bool)
    requires r in d.timers && d.timers[r] == Recover && r + 1 == d.nextTimerId
    requires first in d.timers && d.timers[first] == FallbackRestart && first != r
    requires !d.listening && d.annyang && !startFails
    ensures var recovered := OnTimer(d, r, startFails, false);
      && recovered.state == Hibernating
      && recovered.fallbackTimeout == Some(r + 1)
      && first in recovered.timers && recovered.timers[first] == FallbackRestart
  {
    var t := d.(timers := d.timers - {r});
    SetStateNoChangeIff(t, Hibernating);
  }

  /** handleError's recovery, from whatever state: HIBERNATING again, then
      startWakeWordDetection. */
  lemma RecoverRestarts(s: Session, id: TimerId, startFails: bool, recorderFails: bool)
    requires id in s.timers && s.timers[id] == Recover
    ensures OnTimer(s, id, startFails, recorderFails).state == Hibernating
    ensures OnTimer(s, id, startFails, recorderFails)
      == StartWakeWordDetection(SetState(s.(timers := s.timers - {id}), Hibernating), startFails)
  {
    SetStateNoChangeIff(s.(timers := s.timers - {id}), Hibernating);
  }

  /** A denied microphone while hibernating: ERROR, then the recovery starts
      the recogniser again with a second fallback, and the first one is never
      cleared. A wake word then clears only the second, so the first restart
      is still pending during the question. */
  lemma DeniedRecognitionOrphansFallback(s: Session, code: string)
    requires Valid(s) && s.initialized && s.state == Hibernating && !s.listening
    requires s.fallbackTimeout.Some? && code in PERMISSION_ERRORS
    ensures var r := s.nextTimerId;
      var denied := HandleRecognitionError(s, code);
      && denied.state == Error
      && r in denied.timers && denied.timers[r] == Recover
      && var recovered := OnTimer(denied, r, false, false);
      && recovered.fallbackTimeout == Some(r + 1)
      && var heard := OnWakeWordDetected(recovered);
      && heard.state == Listening
      && heard.fallbackTimeout == None
      && s.fallbackTimeout.value in heard.timers
      && heard.timers[s.fallbackTimeout.value] == FallbackRestart
  {
    var first := s.fallbackTimeout.value;
    var r := s.nextTimerId;
    DeniedRecognitionKeepsFallback(s, code);
    var denied := HandleRecognitionError(s, code);
    RecoveryLeavesOldFallback(denied, r, first, false);
    var recovered := OnTimer(denied, r, false, false);
    HandleRecognitionErrorKeepsValid(s, code);
    OnTimerKeepsValid(denied, r, false, false);
    WakeWordDetectedOutcome(recovered);
    assert OnWakeWordDetected(recovered).timers[first] == FallbackRestart by {
      var aborted := recovered.(effects := recovered.effects + [AbortRecognizer], listening := false);
      assert first != recovered.fallbackTimeout.value;
      assert ClearFallback(aborted).timers[first] == FallbackRestart;
    }
  }
}
