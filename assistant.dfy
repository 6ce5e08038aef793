/**
 * The class InocencioVoiceAssistant (index.js:15-631) as an object whose
 * methods update its fields in place. Every method is proved to perform
 * exactly the step of the session machine in session.dfy that models it,
 * and the public ones, the callbacks the browser invokes, to keep the
 * session invariant.
 */
module VoiceAssistant {
  import opened Wrappers
  import opened TextNormalization
  import opened WakeWord
  import M = Session

  class InocencioVoiceAssistant {
    var currentState: M.State
    var isInitialized: bool
    var hasAudioStream: bool            // audioStream != null
    var annyangLoaded: bool             // window.annyang is defined
    var mediaRecorder: M.Recorder
    var audioChunks: seq<M.Blob>
    var phraseIndex: nat
    var isListeningForWakeWord: bool
    var questionTimeout: Option<M.TimerId>
    var fallbackTimeout: Option<M.TimerId>
    var timers: map<M.TimerId, M.Timer>  // the browser's pending setTimeout callbacks
    var nextTimerId: M.TimerId
    var rotating: bool                  // startPhraseRotation has run
    var uploads: nat                    // POST /voice requests awaiting their reply
    var responseAudio: Option<M.Blob>   // responseAudio.src
    var effects: seq<M.Effect>          // calls into the recogniser, recorder, server, player and view
    const phrases: seq<string>
    const commands: seq<string>         // the phrases registered with annyang.addCommands

    /** The fields as a session value. */
    function Snapshot(): M.Session
      reads this
    {
      M.Session(currentState, isInitialized, hasAudioStream, annyangLoaded, mediaRecorder, audioChunks,
        phraseIndex, isListeningForWakeWord, questionTimeout, fallbackTimeout, timers, nextTimerId,
        rotating, uploads, responseAudio, effects)
    }

    ghost predicate Valid()
      reads this
    {
      phrases == M.PHRASES && M.Valid(Snapshot())
    }

    /** The constructor (index.js:16-46) followed by init() run to its end.
        The command table is registered only when every step of init() succeeds. */
    constructor (outcome: M.InitOutcome, startFails: bool)
      ensures Valid()
      ensures Snapshot() == M.Initialize(outcome, startFails)
      ensures outcome == M.Ready ==>
        && |commands| == 4 * |WAKE_WORDS| + |EMERGENCY_COMMANDS|
        && (forall k :: 0 <= k < |WAKE_WORDS| ==> commands[4 * k..4 * k + 4] == Variants(WAKE_WORDS[k]))
        && commands[4 * |WAKE_WORDS|..] == EMERGENCY_COMMANDS
      ensures outcome != M.Ready ==> commands == []
    {
      var registered: seq<string> := [];
      if outcome == M.Ready {
        registered := SetupCommands();
      }
      currentState := M.Hibernating;
      isInitialized := false;
      hasAudioStream := false;
      annyangLoaded := false;
      mediaRecorder := M.NoRecorder;
      audioChunks := [];
      phraseIndex := 0;
      isListeningForWakeWord := false;
      questionTimeout := None;
      fallbackTimeout := None;
      timers := map[];
      nextTimerId := 1;
      rotating := false;
      uploads := 0;
      responseAudio := None;
      effects := [];
      phrases := M.PHRASES;
      commands := registered;
      new;
      M.InitializeKeepsValid(outcome, startFails);
      Init(outcome, startFails);
    }

    /** init() (index.js:48-67): `outcome` says at which step it stopped,
        `startFails` whether annyang.start throws in startSystem. */
    method Init(outcome: M.InitOutcome, startFails: bool)
      requires Snapshot() == M.Fresh()
      modifies this
      ensures Snapshot() == M.Initialize(outcome, startFails)
    {
      if outcome == M.LibraryMissing {
        HandleError();
      } else {
        annyangLoaded := true;
        if outcome != M.Ready {
          HandleError();
        } else {
          hasAudioStream := true;
          StartSystem(startFails);
          isInitialized := true;
        }
      }
    }

    /** setState (index.js:417-423). */
    method SetState(to: M.State)
      modifies this
      ensures Snapshot() == M.SetState(old(Snapshot()), to)
    {
      if currentState != to {
        currentState := to;
        effects := effects + [M.Render(to)];
      }
    }

    /** `setTimeout`: the callback waits under a fresh id. */
    method SetTimeout(t: M.Timer) returns (id: M.TimerId)
      modifies this
      ensures Snapshot() == M.SetTimeout(old(Snapshot()), t)
      ensures id == old(nextTimerId)
    {
      id := nextTimerId;
      timers := timers[id := t];
      nextTimerId := nextTimerId + 1;
    }

    method ClearFallback()
      modifies this
      ensures Snapshot() == M.ClearFallback(old(Snapshot()))
    {
      if fallbackTimeout.Some? {
        timers := timers - {fallbackTimeout.value};
        fallbackTimeout := None;
      }
    }

    /** handleError (index.js:482-493). */
    method HandleError()
      modifies this
      ensures Snapshot() == M.HandleError(old(Snapshot()))
    {
      SetState(M.Error);
      var _ := SetTimeout(M.Recover);
    }

    /** startSystem (index.js:212-216). */
    method StartSystem(startFails: bool)
      modifies this
      ensures Snapshot() == M.StartSystem(old(Snapshot()), startFails)
    {
      SetState(M.Hibernating);
      StartWakeWordDetection(startFails);
      rotating := true;
    }

    /** startWakeWordDetection (index.js:218-233). */
    method StartWakeWordDetection(startFails: bool)
      modifies this
      ensures Snapshot() == M.StartWakeWordDetection(old(Snapshot()), startFails)
    {
      if isListeningForWakeWord {
      } else if startFails || !annyangLoaded {
        var _ := SetTimeout(M.RetryStart);
      } else {
        effects := effects + [M.StartRecognizer];
        var id := SetTimeout(M.FallbackRestart);
        fallbackTimeout := Some(id);
      }
    }

    /** restartWakeWordDetection (index.js:235-249). */
    method RestartWakeWordDetection()
      modifies this
      ensures Snapshot() == M.RestartWakeWordDetection(old(Snapshot()))
    {
      ClearFallback();
      effects := effects + [M.AbortRecognizer];
      var _ := SetTimeout(M.StartIfHibernating);
    }

    /** onWakeWordDetected (index.js:251-274). */
    method OnWakeWordDetected()
      modifies this
      ensures Snapshot() == M.OnWakeWordDetected(old(Snapshot()))
    {
      effects := effects + [M.AbortRecognizer];
      isListeningForWakeWord := false;
      ClearFallback();
      SetState(M.Listening);
      var _ := SetTimeout(M.BeginCapture);
    }

    /** startQuestionCapture (index.js:276-328). */
    method StartQuestionCapture(recorderFails: bool)
      modifies this
      ensures Snapshot() == M.StartQuestionCapture(old(Snapshot()), recorderFails)
    {
      if !hasAudioStream {
        HandleError();
      } else {
        audioChunks := [];
        if recorderFails {
          HandleError();
        } else {
          mediaRecorder := M.Recording;
          effects := effects + [M.StartRecorder];
          var id := SetTimeout(M.StopRecording);
          questionTimeout := Some(id);
        }
      }
    }

    /** playResponse up to `play()` (index.js:378-399). */
    method PlayResponse(audio: M.Blob)
      modifies this
      ensures Snapshot() == M.PlayResponse(old(Snapshot()), audio)
    {
      SetState(M.Speaking);
      responseAudio := Some(audio);
      effects := effects + [M.PlayAudio(audio)];
    }

    // -------------------------------------------------------------------
    // The callbacks the browser invokes
    // -------------------------------------------------------------------

    /** The recogniser's `start` callback (index.js:153-156). */
    method OnRecognizerStart()
      requires Valid() && isInitialized
      modifies this
      ensures Valid()
      ensures Snapshot() == M.OnRecognizerStart(old(Snapshot()))
    {
      isListeningForWakeWord := true;
    }

    /** The recogniser's `end` callback (index.js:163-169). */
    method OnRecognizerEnd()
      requires Valid() && isInitialized
      modifies this
      ensures Valid()
      ensures Snapshot() == M.OnRecognizerEnd(old(Snapshot()))
    {
      M.OnRecognizerEndKeepsValid(Snapshot());
      isListeningForWakeWord := false;
      if currentState == M.Hibernating {
        RestartWakeWordDetection();
      }
    }

    /** The recogniser's `result` callback and processRecognitionResult (index.js:171-174, 185-200). */
    method ProcessRecognitionResult(alternatives: Option<seq<string>>)
      requires Valid() && isInitialized
      modifies this
      ensures Valid()
      ensures Snapshot() == M.ProcessRecognitionResult(old(Snapshot()), alternatives)
    {
      M.ProcessRecognitionResultKeepsValid(Snapshot(), alternatives);
      if alternatives.Some? && |alternatives.value| > 0 {
        var bestMatch := ToLower(alternatives.value[0]);
        assert WakeWordHeard(alternatives) == HasWakeWord(bestMatch);
        if HasWakeWord(bestMatch) && currentState == M.Hibernating {
          OnWakeWordDetected();
        }
      }
    }

    /** The recogniser's `error` callback and handleRecognitionError (index.js:158-161, 459-480). */
    method HandleRecognitionError(code: string)
      requires Valid() && isInitialized
      modifies this
      ensures Valid()
      ensures Snapshot() == M.HandleRecognitionError(old(Snapshot()), code)
    {
      M.HandleRecognitionErrorKeepsValid(Snapshot(), code);
      if code in M.IGNORABLE_ERRORS {
      } else if code in M.PERMISSION_ERRORS {
        HandleError();
      } else {
        var _ := SetTimeout(M.RestartIfHibernating);
      }
    }

    /** One of the registered commands matched (index.js:136-148). */
    method OnCommand()
      requires Valid() && isInitialized
      modifies this
      ensures Valid()
      ensures Snapshot() == M.OnWakeWordDetected(old(Snapshot()))
    {
      M.OnWakeWordDetectedKeepsValid(Snapshot());
      OnWakeWordDetected();
    }

    /** The recorder's `ondataavailable` (index.js:297-301). */
    method OnRecorderData(chunk: M.Blob)
      requires Valid() && mediaRecorder != M.NoRecorder
      modifies this
      ensures Valid()
      ensures Snapshot() == M.OnRecorderData(old(Snapshot()), chunk)
    {
      if |chunk| > 0 {
        audioChunks := audioChunks + [chunk];
      }
    }

    /** processRecordedAudio up to the upload (index.js:330-360). */
    method ProcessRecordedAudio()
      modifies this
      ensures Snapshot() == M.ProcessRecordedAudio(old(Snapshot()))
    {
      if audioChunks == [] {
        HandleError();
      } else {
        var audio := M.Concat(audioChunks);
        SetState(M.Processing);
        effects := effects + [M.PostVoice(audio)];
        uploads := uploads + 1;
      }
    }

    /** The recorder's `onstop` (index.js:303-305): the recorder is inactive, and the recording is processed. */
    method OnRecorderStop()
      requires Valid() && mediaRecorder != M.NoRecorder
      modifies this
      ensures Valid()
      ensures Snapshot() == M.OnRecorderStop(old(Snapshot()))
    {
      M.OnRecorderStopKeepsValid(Snapshot());
      mediaRecorder := M.Inactive;
      ProcessRecordedAudio();
    }

    /** The recorder's `onerror` (index.js:307-310): the recorder is inactive, and handleError runs. */
    method OnRecorderError()
      requires Valid() && mediaRecorder != M.NoRecorder
      modifies this
      ensures Valid()
      ensures Snapshot() == M.OnRecorderError(old(Snapshot()))
    {
      M.OnRecorderErrorKeepsValid(Snapshot());
      mediaRecorder := M.Inactive;
      HandleError();
    }

    /** The end of processRecordedAudio (index.js:361-375): `None` when the
        request fails or the answer is not ok, else the answer's audio. */
    method OnVoiceReply(reply: Option<M.Blob>)
      requires Valid() && uploads > 0
      modifies this
      ensures Valid()
      ensures Snapshot() == M.OnVoiceReply(old(Snapshot()), reply)
    {
      M.OnVoiceReplyKeepsValid(Snapshot(), reply);
      uploads := uploads - 1;
      if reply.None? {
        HandleError();
      } else {
        PlayResponse(reply.value);
      }
    }

    /** The audio element's `onended` and onResponseEnded (index.js:387-391, 406-415). */
    method OnResponseEnded()
      requires Valid() && responseAudio.Some?
      modifies this
      ensures Valid()
      ensures Snapshot() == M.OnResponseEnded(old(Snapshot()))
    {
      M.OnResponseEndedKeepsValid(Snapshot());
      SetState(M.Hibernating);
      var _ := SetTimeout(M.ResumeDetection);
    }

    /** The audio element's `onerror`, or `play()` rejecting (index.js:393-402). */
    method OnPlaybackError()
      requires Valid() && responseAudio.Some?
      modifies this
      ensures Valid()
      ensures Snapshot() == M.HandleError(old(Snapshot()))
    {
      M.HandleErrorKeepsValid(Snapshot());
      HandleError();
    }

    /** A pending timer fires: the browser drops it and runs its callback. */
    method FireTimer(id: M.TimerId, startFails: bool, recorderFails: bool)
      requires Valid() && id in timers
      modifies this
      ensures Valid()
      ensures Snapshot() == M.OnTimer(old(Snapshot()), id, startFails, recorderFails)
    {
      M.OnTimerKeepsValid(Snapshot(), id, startFails, recorderFails);
      var callback := timers[id];
      timers := timers - {id};
      RunTimer(callback, startFails, recorderFails);
    }

    /** The callbacks the class hands to setTimeout (index.js:226-231,
        244-248, 271-273, 316-320, 412-414, 475-479, 488-492). */
    method RunTimer(callback: M.Timer, startFails: bool, recorderFails: bool)
      modifies this
      ensures Snapshot() == M.RunTimer(old(Snapshot()), callback, startFails, recorderFails)
    {
      match callback {
      case FallbackRestart => RestartWakeWordDetection();
      case RetryStart => StartWakeWordDetection(startFails);
      case StartIfHibernating =>
        if currentState == M.Hibernating {
          StartWakeWordDetection(startFails);
        }
      case BeginCapture => StartQuestionCapture(recorderFails);
      case StopRecording =>
        if mediaRecorder == M.Recording {
          mediaRecorder := M.Inactive;
          effects := effects + [M.StopRecorder];
        }
      case ResumeDetection => StartWakeWordDetection(startFails);
      case RestartIfHibernating =>
        if currentState == M.Hibernating {
          RestartWakeWordDetection();
        }
      case Recover =>
        SetState(M.Hibernating);
        StartWakeWordDetection(startFails);
      }
    }

    /** One tick of the interval of startPhraseRotation (index.js:560-570). */
    method RotatePhrase()
      requires Valid() && rotating
      modifies this
      ensures Valid()
      ensures Snapshot() == M.RotatePhrase(old(Snapshot()))
      ensures 0 <= phraseIndex < |phrases|
    {
      if currentState == M.Hibernating && !isListeningForWakeWord {
        phraseIndex := (phraseIndex + 1) % |phrases|;
      }
    }

    /** testSystem (index.js:611-614), which the page may call at any time. */
    method TestSystem()
      requires Valid()
      modifies this
      ensures Valid()
      ensures Snapshot() == M.TestSystem(old(Snapshot()))
    {
      M.HelpersKeepValid(Snapshot());
      if annyangLoaded {
        OnWakeWordDetected();
      }
    }

    /** forceActivation (index.js:616-620), which the page may call at any time. */
    method ForceActivation()
      requires Valid()
      modifies this
      ensures Valid()
      ensures Snapshot() == M.ForceActivation(old(Snapshot()))
    {
      M.HelpersKeepValid(Snapshot());
      if annyangLoaded {
        effects := effects + [M.AbortRecognizer];
        OnWakeWordDetected();
      }
    }

    /** getSystemStatus (index.js:622-630). */
    function GetSystemStatus(): (r: M.SystemStatus)
      reads this
      ensures r == M.Status(Snapshot())
    {
      M.SystemStatus(currentState, isInitialized, isListeningForWakeWord, annyangLoaded, hasAudioStream)
    }
  }
}
