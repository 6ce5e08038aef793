# Inocêncio voice assistant: wake-word matching and session controller

This project models the core of `index.js`, a browser voice assistant named
Inocêncio. The assistant listens for its name through the annyang speech
recogniser. When it hears the name, it records a five-second question with a
MediaRecorder and posts the audio to `POST /voice`. It then plays the spoken
answer and goes back to waiting for the name. The model has four parts:

- `text_normalization.dfy` (module `TextNormalization`) is `normalizeText`:
  lower-casing, canonical decomposition (NFD), removal of combining marks,
  replacement of every character that is neither `\w` nor `\s` by a space,
  collapsing of whitespace runs, and trimming. It is a chain of pure
  functions. The lemmas prove what the result looks like, and that the
  function is idempotent with exactly the normalised strings as fixed points.
- `wake_word.dfy` (module `WakeWord`) covers the wake-word test of
  `processRecognitionResult` and the command table of `setupAnnyangCommands`.
  It proves that the normalised wake words are `inocencio`,
  `inocencio`, `hey inocencio` and `oi inocencio`. From that it proves that a
  recogniser result passes processRecognitionResult's wake-word test exactly
  when its first alternative, normalised, contains `inocencio`. The result
  acts only while HIBERNATING, while the command callbacks wake the assistant
  from any state. The command table is built by a loop, as in the source, and the
  loop is proved to produce the four phrasings of each wake word followed by
  the three fixed commands.
- `session.dfy` (module `Session`) is the state machine of the class
  `InocencioVoiceAssistant`, written as values:
  - a `Session` holds every field the class changes;
  - every method or callback is a function from one session to the next;
  - `Step` dispatches the events the browser can deliver;
  - every `setTimeout` callback waits in a table of pending timers until it
    fires or is cleared;
  - calls into the recogniser, the recorder, the server and the audio element
    are recorded, in order, in `effects`.

  The lemmas prove the invariant every event keeps, and the promises of the
  controller.
- `assistant.dfy` (module `VoiceAssistant`) is the class itself. Most of its
  fields are those of the source, and its methods update them in place. The
  fields `timers`, `nextTimerId`, `rotating`, `uploads`, `responseAudio` and
  `effects` stand for browser state rather than fields of the source: the
  pending `setTimeout` callbacks, the rotation interval, the requests in
  flight, the audio element's source and the calls made outside the class. Each method
  is proved to perform exactly the step of `Session` that specifies it. Each
  browser callback is also proved to keep the session invariant.

The model follows the code as written:

- The only `stop()` call is the 5000 ms timer's, made on the recorder that is
  current when it fires. Nothing detects silence or enforces a minimum
  duration.
- A recording that yields no chunks goes to ERROR through `handleError`, and
  nothing is uploaded.
- The recogniser's command callbacks call `onWakeWordDetected` with no state
  guard. A command heard while PROCESSING or SPEAKING therefore starts a new
  question (`CommandWakesFromAnyState`). Only the `result` callback checks
  for HIBERNATING.
- Only `no-speech` and `aborted` are ignored among recogniser errors.
  `not-allowed` and `service-not-allowed` lead to ERROR. Every other error
  schedules a restart that runs only if the assistant is still HIBERNATING.
- The request to `/voice` has no timeout of its own. A failed request or a
  non-ok answer goes to ERROR.
- `startWakeWordDetection` overwrites `fallbackTimeout` without clearing the
  timer it held. The permission-error path reaches this. The recogniser starts
  with a fallback restart pending, then a `not-allowed` error leads to ERROR.
  The recovery five seconds later starts the recogniser again under a second
  fallback. A wake word then clears only the second one, so the first restart
  is still pending while the question is handled, and can fire during it
  (`DeniedRecognitionOrphansFallback`). Whether it does depends on timer
  durations the model leaves out.

External events are parameters:

- whether `annyang.start` throws (`startFails`);
- whether creating or starting the MediaRecorder throws (`recorderFails`);
- where `init()` stops (`InitOutcome`);
- the recogniser's alternatives and error codes;
- the recorder's data blobs;
- the server's reply (`Option<Blob>`).

## Model

| member | source | states |
|---|---|---|
| TextNormalization.IsWordChar | index.js:207 | `\w` without the `u` flag holds only for ASCII characters |
| TextNormalization.IsSpace | index.js:207-209 | no character of `\s` is a word character or a combining mark |
| TextNormalization.LowerChar | index.js:204 | a lowered character is never an upper-case letter, and a character that is not upper-case is left unchanged |
| TextNormalization.ToLower | index.js:204 | lower-casing keeps the length, leaves no capital, and keeps every character that is not a capital in place |
| TextNormalization.Decompose | index.js:205 | characters below U+00C0 decompose to themselves, and the decomposition of a non-capital contains no ASCII capital |
| TextNormalization.Nfd | index.js:205 | decomposition turns each character into one or two |
| TextNormalization.NfdKeepsAscii | index.js:205 | decomposition leaves a text below U+00C0 unchanged |
| TextNormalization.StripMarks | index.js:206 | removing U+0300–U+036F never lengthens the text and leaves no combining mark |
| TextNormalization.StripMarksKeeps | index.js:206 | removing U+0300–U+036F keeps only characters of the input that are not combining marks, and leaves a string without marks unchanged |
| TextNormalization.PunctuationToSpace | index.js:207 | a character is kept exactly when it is a word character or whitespace, and every other character becomes a blank |
| TextNormalization.DropSpaces | index.js:209 | trimming the front never lengthens the text, and the result is empty or starts with a non-space |
| TextNormalization.DropSpacesIsSuffix | index.js:209 | what the front trim leaves is a suffix of the input |
| TextNormalization.DropSpacesAppend | index.js:209 | on a concatenation, the front trim reaches into the second part exactly when the first part is all whitespace, and otherwise keeps the second part whole |
| TextNormalization.DropSpacesDropsOnlySpaces | index.js:209 | every character the front trim drops is whitespace |
| TextNormalization.DropTrailingSpaces | index.js:209 | trimming the end keeps a prefix of the input, and the result ends with a non-space |
| TextNormalization.DropTrailingSpacesDropsOnlySpaces | index.js:209 | every character the end trim drops is whitespace |
| TextNormalization.Trim | index.js:209 | the trimmed text neither starts nor ends with whitespace, and is empty exactly when the input is all whitespace |
| TextNormalization.CollapseSpaces | index.js:208 | collapsing never lengthens the text, gives an empty result exactly for an empty input, and starts with the input's first character or a blank for leading whitespace |
| TextNormalization.CollapseSpacesSingle | index.js:208 | after whitespace runs are collapsed, no space follows a space |
| TextNormalization.CollapseSpacesAppend | index.js:208 | two texts that do not meet inside a run of whitespace collapse separately: collapsing the concatenation concatenates the collapsed parts |
| TextNormalization.CollapseRunThen | index.js:208 | a run of whitespace in front of a text that starts with a non-space becomes one blank in front of that text, collapsed |
| TextNormalization.CollapseAllSpaces | index.js:208 | a non-empty text made only of whitespace collapses to a single blank |
| TextNormalization.CollapseNonSpace | index.js:208 | a single character that is not whitespace collapses to itself |
| TextNormalization.TrimKeepsInner | index.js:209 | trimming keeps, whole and in order, every stretch of its input that starts and ends with a non-space |
| TextNormalization.Normalize | index.js:202-210 | the output of normalizeText has only lower-case word characters and single spaces, no combining mark, and no leading or trailing space |
| TextNormalization.NormalizeFixedPoints | index.js:202-210 | normalizeText leaves a string unchanged exactly when the string is already normalised |
| TextNormalization.NormalizeIdempotent | index.js:202-210 | normalising twice gives the same result as normalising once |
| TextNormalization.CollapseAround | index.js:208 | a normalised word between two texts passes through collapsing unchanged, with each side collapsed on its own |
| TextNormalization.NormalizeKeepsWord | index.js:202-210 | a piece of the input that lower-cases, decomposes and loses its marks to a normalised word appears whole in normalizeText's output, whatever text surrounds it |
| TextNormalization.FoldAppend | index.js:204-206 | lower-casing, decomposition and mark removal act character by character, so they distribute over concatenation |
| WakeWord.Includes | index.js:193 | `String.prototype.includes` holds exactly when the word occurs at some position of the text |
| WakeWord.NormalizedWakeWords | index.js:3 | the normalised wake words are "inocencio", "inocencio", "hey inocencio" and "oi inocencio" |
| WakeWord.HasWakeWord | index.js:190-194 | a transcript that passes the `WAKE_WORDS.some` test holds "inocencio" once normalised |
| WakeWord.HasWakeWordIff | index.js:192-194 | some normalised wake word occurs in the normalised transcript exactly when "inocencio" occurs in it |
| WakeWord.WakeWordHeard | index.js:185-194 | an absent or empty list of alternatives never passes the guard, and a passing first alternative holds "inocencio" once normalised |
| WakeWord.WakeWordHeardIff | index.js:185-194 | a recogniser result contains a wake word exactly when it has a first alternative whose lower-cased, normalised text contains "inocencio" |
| WakeWord.FoldsToPlain | index.js:204-206 | the name in any letter case, with or without its accent, lower-cases, decomposes and loses its marks to "inocencio" |
| WakeWord.NameWakes | index.js:185-194 | a first alternative that holds the name in any letter case, accented or not, with any text before and after it, passes the wake-word guard |
| WakeWord.CapitalisedName | index.js:204 | "Inocêncio" lower-cases to "inocêncio" |
| WakeWord.NameSpellingsWake | index.js:185-194 | a first alternative holding "inocêncio" or "Inocêncio" anywhere passes the wake-word guard |
| WakeWord.Variants | index.js:139-142 | the four phrasings registered for a wake word all contain the wake word |
| WakeWord.SetupCommands | index.js:136-150 | the command table has four phrasings of each wake word in order, followed by the three fixed commands, and every phrase is a fixed command or contains a wake word |
| Session.ClassifyRecognitionError | index.js:459-480 | an error is ignorable exactly when it is no-speech or aborted, needs permission exactly when it is not-allowed or service-not-allowed, and is transient otherwise |
| Session.SetStateNoChangeIff | index.js:417-423 | setState always leaves the target state, changes nothing exactly when the state is already the target, and otherwise refreshes the view once |
| Session.WakeWordDetectedOutcome | index.js:251-274 | from any state, a wake word aborts the recogniser, lowers the listening flag, cancels the fallback restart, enters LISTENING and schedules the question capture, and leaves the chunks, uploads and phrase index alone |
| Session.CommandWakesFromAnyState | index.js:138-148 | a matched command reaches LISTENING and schedules a capture whatever the state was, PROCESSING and SPEAKING included |
| Session.RecognitionResultActsIff | index.js:185-200 | a recognition result changes the session exactly when the assistant is HIBERNATING and the first alternative contains the name, and the change is then onWakeWordDetected |
| Session.RecognitionErrorOutcomes | index.js:459-480 | ignorable errors change nothing, permission errors enter ERROR with a recovery pending, and other errors only schedule a restart that depends on HIBERNATING |
| Session.GuardedTimersNeedHibernating | index.js:244-248 | the scheduled start and the scheduled restart do nothing but leave the timer table when the assistant is no longer HIBERNATING, and otherwise run startWakeWordDetection or restartWakeWordDetection |
| Session.StartDetectionOutcome | index.js:218-233 | starting detection is a no-op while listening; if annyang.start throws, it schedules a retry and keeps the fallback; otherwise it starts the recogniser and arms a new fallback restart |
| Session.RestartClearsFallback | index.js:235-249 | a restart cancels the pending fallback, aborts the recogniser and schedules a start that depends on HIBERNATING, without changing the state |
| Session.CaptureResetsChunks | index.js:276-328 | a capture with an audio stream starts with no chunks; without a stream it is an error; the recorder records exactly when the stream exists and its set-up does not throw, or was already recording; when it can be set up, the recorder starts and the five-second stop is armed in questionTimeout |
| Session.StopTimerStops | index.js:313-320 | the five-second stop finds a recorder still recording, stops it, and changes nothing else |
| Session.NonEmpty | index.js:297-301 | the blobs ondataavailable keeps are all non-empty |
| Session.ReceiveAllAppends | index.js:297-301 | a run of data events appends the non-empty blobs in arrival order and changes nothing else |
| Session.NonEmptyKeepsAudio | index.js:341 | skipping empty blobs does not change the bytes of the Blob built from the chunks |
| Session.ConcatOfNonEmptyChunks | index.js:331 | kept chunks give empty audio exactly when there are none |
| Session.RecordingOutcome | index.js:330-360 | with no chunks the recording ends in ERROR with a recovery pending and no upload; with chunks it enters PROCESSING and posts exactly the recorded bytes once |
| Session.RecordingUploadsEverything | index.js:276-360 | from the start of a capture, even one that replaces a recorder still recording, to the recorder's stop, the recorder is inactive and the upload carries every byte the recorder delivered, and an empty recording is an error |
| Session.RecorderEndsRecording | index.js:303-320 | after the recorder stops or fails it is inactive, a failure enters ERROR keeping the chunks, and the pending five-second stop then calls nothing |
| Session.VoiceReplyOutcome | index.js:361-399 | a reply ends the request; a failed or non-ok reply enters ERROR with a recovery pending and plays nothing; an answer enters SPEAKING, becomes the response's source and is played |
| Session.ResponseEndedOutcome | index.js:406-415 | the end of playback enters HIBERNATING from any state and schedules a start of the recogniser that does not test the state |
| Session.RecognizerEndOutcome | index.js:163-169 | when the recogniser ends the listening flag goes down, and a restart, which aborts the recogniser and schedules a guarded start, happens exactly when HIBERNATING |
| Session.HelpersOutcome | index.js:611-620 | with the library loaded, testSystem runs onWakeWordDetected and forceActivation aborts once more before it, reaching LISTENING with a capture pending from any state; without it both throw and change nothing |
| Session.RotationOutcome | index.js:560-570 | a rotation tick keeps the phrase index below five, and advances it by one modulo five exactly when hibernating and not listening |
| Session.RotationCycles | index.js:560-570 | while idle, n ticks advance the index by n modulo five, and five ticks come back to the same phrase |
| Session.StepKeepsValid | index.js:136-569 | every event keeps the invariant: a set fallbackTimeout names a pending fallback restart, timer ids are positive and fresh, kept chunks are non-empty, and the phrase index is in bounds |
| Session.InitializeKeepsValid | index.js:48-67 | whatever step init() stops at, the session satisfies the invariant |
| Session.InitializeOutcome | index.js:48-67 | init() ends either HIBERNATING with the rotation running, and a fallback pending exactly when annyang.start succeeded, or in ERROR with only a recovery pending |
| Session.DeniedRecognitionKeepsFallback | index.js:459-471 | a permission error while hibernating enters ERROR and schedules a recovery, but leaves the pending fallback restart in place |
| Session.RecoveryLeavesOldFallback | index.js:488-492 | the recovery starts the recogniser under a new fallback id while the earlier fallback restart stays pending |
| Session.RecoverRestarts | index.js:488-492 | handleError's recovery returns to HIBERNATING from any state, then runs startWakeWordDetection |
| Session.DeniedRecognitionOrphansFallback | index.js:218-233 | after a permission error, its recovery and a wake word, fallbackTimeout is null but the first fallback restart is still pending |
| VoiceAssistant.InocencioVoiceAssistant.constructor | index.js:16-67 | the new object is the session init() produces for the given outcome, satisfies the invariant, and has the command table registered exactly when init() succeeds |
| VoiceAssistant.InocencioVoiceAssistant.Init | index.js:48-67 | from the fresh fields, init() leaves the fields as Session.Initialize says |
| VoiceAssistant.InocencioVoiceAssistant.SetState | index.js:417-423 | the fields change as Session.SetState says |
| VoiceAssistant.InocencioVoiceAssistant.HandleError | index.js:482-493 | the fields change as Session.HandleError says |
| VoiceAssistant.InocencioVoiceAssistant.StartSystem | index.js:212-216 | the fields change as Session.StartSystem says |
| VoiceAssistant.InocencioVoiceAssistant.StartWakeWordDetection | index.js:218-233 | the fields change as Session.StartWakeWordDetection says |
| VoiceAssistant.InocencioVoiceAssistant.RestartWakeWordDetection | index.js:235-249 | the fields change as Session.RestartWakeWordDetection says |
| VoiceAssistant.InocencioVoiceAssistant.OnWakeWordDetected | index.js:251-274 | the fields change as Session.OnWakeWordDetected says |
| VoiceAssistant.InocencioVoiceAssistant.StartQuestionCapture | index.js:276-328 | the fields change as Session.StartQuestionCapture says |
| VoiceAssistant.InocencioVoiceAssistant.PlayResponse | index.js:378-399 | the fields change as Session.PlayResponse says |
| VoiceAssistant.InocencioVoiceAssistant.OnRecognizerStart | index.js:153-156 | the invariant holds, and the listening flag goes up as Session.OnRecognizerStart says |
| VoiceAssistant.InocencioVoiceAssistant.OnRecognizerEnd | index.js:163-169 | the invariant holds, and the fields change as Session.OnRecognizerEnd says |
| VoiceAssistant.InocencioVoiceAssistant.ProcessRecognitionResult | index.js:185-200 | the invariant holds, and the fields change as Session.ProcessRecognitionResult says |
| VoiceAssistant.InocencioVoiceAssistant.HandleRecognitionError | index.js:459-480 | the invariant holds, and the fields change as Session.HandleRecognitionError says |
| VoiceAssistant.InocencioVoiceAssistant.OnCommand | index.js:138-148 | the invariant holds, and a matched command runs Session.OnWakeWordDetected |
| VoiceAssistant.InocencioVoiceAssistant.OnRecorderData | index.js:297-301 | the invariant holds, and only a non-empty blob is appended to the chunks |
| VoiceAssistant.InocencioVoiceAssistant.ProcessRecordedAudio | index.js:330-360 | the fields change as Session.ProcessRecordedAudio says |
| VoiceAssistant.InocencioVoiceAssistant.OnRecorderStop | index.js:303-305 | the invariant holds, and the fields change as Session.OnRecorderStop says: the recorder is inactive and the recording is processed |
| VoiceAssistant.InocencioVoiceAssistant.OnRecorderError | index.js:307-310 | the invariant holds, and the fields change as Session.OnRecorderError says: the recorder is inactive and handleError runs |
| VoiceAssistant.InocencioVoiceAssistant.OnVoiceReply | index.js:361-375 | the invariant holds, and the fields change as Session.OnVoiceReply says |
| VoiceAssistant.InocencioVoiceAssistant.OnResponseEnded | index.js:406-415 | the invariant holds, and the fields change as Session.OnResponseEnded says |
| VoiceAssistant.InocencioVoiceAssistant.OnPlaybackError | index.js:393-402 | the invariant holds, and a playback error runs handleError |
| VoiceAssistant.InocencioVoiceAssistant.FireTimer | index.js:226-492 | the invariant holds, and a timer that fires leaves the table and runs its callback as Session.OnTimer says |
| VoiceAssistant.InocencioVoiceAssistant.RunTimer | index.js:226-492 | each callback handed to setTimeout changes the fields as Session.RunTimer says |
| VoiceAssistant.InocencioVoiceAssistant.RotatePhrase | index.js:560-570 | the invariant holds, the fields change as Session.RotatePhrase says, and the index stays within the five phrases |
| VoiceAssistant.InocencioVoiceAssistant.TestSystem | index.js:611-614 | callable in any valid state, it keeps the invariant and changes the fields as Session.TestSystem says |
| VoiceAssistant.InocencioVoiceAssistant.ForceActivation | index.js:616-620 | callable in any valid state, it keeps the invariant and changes the fields as Session.ForceActivation says |
| VoiceAssistant.InocencioVoiceAssistant.GetSystemStatus | index.js:622-630 | the status reports the state, the initialised and listening flags, and whether the recogniser library and the audio stream are present |

## Left out

- The DOM is not modelled: `updateStatus`, `updateVisualState`'s indicators
  and CSS classes, the animations (`triggerWakeUpEffect`,
  `startListeningAnimation`, `startSpeakingAnimation`, pupil tracking). A
  state change is recorded only as a `Render` effect.
- Timer durations (800 ms, 1 s, 2 s, 5 s, 6 s, 30 s) are not modelled. Pending
  callbacks fire in whatever order the events choose, so every interleaving
  the browser allows is covered, and more.
- Network and media I/O are not modelled. A fetch becomes the `Option<Blob>`
  reply, `getUserMedia` becomes the `InitOutcome`, and playback becomes the
  `PlaybackEnd` and `PlaybackError` events. Object URLs and their revocation
  are left out.
- The MIME-type choice of the MediaRecorder is not modelled. The upload is the
  concatenation of the chunk bytes.
- Only the Latin-1 range (U+0000–U+00FF) is modelled for `toLowerCase` and
  `normalize("NFD")`. Other characters are treated as having no case mapping
  and no canonical decomposition.
- annyang's own matching of spoken phrases against the command table is not
  modelled: `OnCommand` stands for any command matching.
- The recogniser settings (`setLanguage`, `continuous`, `interimResults`,
  `maxAlternatives`) are not modelled.
- Recogniser events are enabled only once init() has registered them.
  Recorder and playback events are enabled once a recorder or a response
  exists. Events arriving after that are not checked against the recorder's
  or player's real life cycle.
- Only the current `mediaRecorder` is tracked. When a new capture replaces a
  recorder that is still recording, the old recorder's later events are
  treated as events of the current one, and the old recorder is never
  stopped.
- `VoiceAssistant.InocencioVoiceAssistant.constructor`: the constructor
  starts `init()` without awaiting it. The model runs init() to its end inside
  the constructor, so no event can interleave with init().
- The command table is built before init() starts, not after
  `setupAudioStream`. It is kept only when init() succeeds, so the result is
  the same.
- The fields `wakeWordTimeout` and `CONFIDENCE_THRESHOLD` are never used by
  the code, and they are left out.
- `testSystem` and `forceActivation` are modelled after init() has ended,
  like every other event, because the model runs init() inside the
  constructor. A call made from the page while init() is still pending is not
  modelled.
- The page bootstrap (`DOMContentLoaded`, the global instance, status
  logging) and `beforeunload` are not modelled.
- If creating or starting the MediaRecorder throws after a recorder already
  exists, the model leaves `mediaRecorder` as it was. This is what the source
  does when the constructor throws; a recorder whose `start` throws is not
  distinguished.
