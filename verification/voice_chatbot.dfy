/**
 * The conversation controller: a state machine over "idle", "light_sleep",
 * "deep_sleep", "listening", "processing" and "speaking", driven by the
 * wake signal, transcriptions, the turns of the response worker, the start
 * and end of playback, and the two timeouts. The collaborators are the
 * classes of the other modules; what the language model, the synthesiser,
 * the audio stream and the Ollama service do is given to each handler as
 * its outcome.
 */
module Chatbot {
  import opened Common
  import opened Text
  import Timeouts
  import AudioUtils
  import WhisperStt
  import Conversation
  import Dismissal

  const IdleState := "idle"
  const LightSleep := "light_sleep"
  const DeepSleep := "deep_sleep"
  const Listening := "listening"
  const Processing := "processing"
  const Speaking := "speaking"

  /** The states in which a conversation is under way and the wake signal is ignored. */
  predicate Active(state: string) {
    state == Listening || state == Processing || state == Speaking
  }

  /** The six states the controller uses. */
  predicate Known(state: string) {
    state == IdleState || state == LightSleep || state == DeepSleep || Active(state)
  }

  /**
   * How the second half of a turn goes. The language model always returns
   * `text` (it catches its own errors; empty when nothing came back). Then
   * either something after the reply was recorded raised (creating the
   * temporary file or the `on_ai_response` callback), or the synthesiser
   * returned `audio` (`None` on failure), a file that still exists or not
   * when playback starts.
   */
  datatype TurnOutcome =
    | Raised(text: string)
    | Reply(text: string, audio: Option<string>, fileExists: bool)

  /** The turn fails before playback: the controller goes back to listening. */
  predicate TurnFails(o: TurnOutcome) {
    o.Raised? || o.text == [] || o.audio.None?
  }

  /**
   * The registrations of `initialize`: callbacks 0 to 4 are the handlers of
   * "listening", "processing", "speaking", "light_sleep" and "deep_sleep",
   * and both timeout handlers are installed.
   */
  method RegisterHandlers(sm: AudioUtils.StateManager, tm: Timeouts.TimeoutManager)
    requires sm.stateCallbacks == map[]
    modifies sm`stateCallbacks, tm`hasConversationCallback, tm`hasIdleCallback
    ensures sm.stateCallbacks.Keys == {Listening, Processing, Speaking, LightSleep, DeepSleep}
    ensures sm.CallbacksFor(Listening) == [0] && sm.CallbacksFor(Processing) == [1] && sm.CallbacksFor(Speaking) == [2]
    ensures sm.CallbacksFor(LightSleep) == [3] && sm.CallbacksFor(DeepSleep) == [4]
    ensures tm.hasConversationCallback && tm.hasIdleCallback
  {
    sm.RegisterCallback(Listening, 0);
    sm.RegisterCallback(Processing, 1);
    sm.RegisterCallback(Speaking, 2);
    sm.RegisterCallback(LightSleep, 3);
    sm.RegisterCallback(DeepSleep, 4);
    tm.RegisterConversationCallback();
    tm.RegisterIdleCallback();
  }

  class VoiceChatbot {
    const states: AudioUtils.StateManager
    const timers: Timeouts.TimeoutManager
    const stt: WhisperStt.Recorder
    const history: Conversation.ConversationManager
    const player: AudioUtils.AudioPlayer
    const detector: Dismissal.DismissalDetector
    var isRunning: bool
    var isProcessing: bool
    var isDismissalPending: bool
    /** The `response_queue`, oldest first. */
    var responseQueue: seq<string>
    /** How many sleep signals were sent to the wake-word board. */
    var sleepSignals: nat

    function State(): string
      reads this, states
    {
      states.currentState
    }

    /**
     * The collaborators keep their own invariants, both timer callbacks are
     * registered, the state is one of the six, speech recognition is off in
     * either sleep, and no conversation timer runs in deep sleep.
     */
    predicate Valid()
      reads this, states, timers, stt, player, detector
    {
      && timers.Valid() && stt.Valid() && player.Valid() && detector.Valid()
      && timers.hasConversationCallback && timers.hasIdleCallback
      && Known(State())
      && (State() == LightSleep || State() == DeepSleep ==> !stt.isRunning)
      && (State() == DeepSleep ==> !timers.IsConversationTimerActive())
    }

    /**
     * `__init__` followed by the registrations of `initialize`: the five
     * state handlers and the two timeout handlers; history holds
     * `2 * maxHistory` entries.
     */
    constructor (search: (string, string) -> bool, sessionId: string, maxHistory: int)
      ensures Valid()
      ensures State() == IdleState && !isRunning && !isProcessing && !isDismissalPending
      ensures responseQueue == [] && sleepSignals == 0
      ensures timers.conversationTimeout == 30 && timers.idleTimeout == 300
      ensures history.maxEntries == maxHistory * 2 && history.entries == []
      ensures fresh(states) && fresh(timers) && fresh(stt) && fresh(history) && fresh(player) && fresh(detector)
    {
      var sm := new AudioUtils.StateManager();
      var tm := new Timeouts.TimeoutManager(30, 300);
      var rec := new WhisperStt.Recorder();
      var hist := new Conversation.ConversationManager(sessionId, maxHistory * 2);
      var pl := new AudioUtils.AudioPlayer();
      var det := new Dismissal.DismissalDetector(search);
      RegisterHandlers(sm, tm);
      states := sm;
      timers := tm;
      stt := rec;
      history := hist;
      player := pl;
      detector := det;
      isRunning := false;
      isProcessing := false;
      isDismissalPending := false;
      responseQueue := [];
      sleepSignals := 0;
    }

    /**
     * `_enter_light_sleep`: speech recognition stops, the conversation
     * timer is cancelled, the idle timer is armed afresh, the board is told
     * to sleep, and the state becomes "light_sleep".
     */
    method EnterLightSleep()
      requires Valid()
      modifies stt`isRunning, timers`conversation, timers`idle, states`currentState, states`invoked, this`sleepSignals
      ensures Valid()
      ensures State() == LightSleep && !stt.isRunning
      ensures timers.conversation == Timeouts.Empty && timers.idle == Timeouts.Armed(timers.now + timers.idleTimeout)
      ensures sleepSignals == old(sleepSignals) + 1
    {
      stt.Stop();
      timers.StopConversationTimer();
      timers.StartIdleTimer();
      sleepSignals := sleepSignals + 1;
      states.SetState(LightSleep, None);
    }

    /**
     * `_enter_deep_sleep`, where `backendStopped` is what stopping the
     * Ollama service gave: speech recognition stops and both timers are
     * cancelled; then either the state becomes "deep_sleep", or, when the
     * service could not be stopped, the idle timer is armed again and the
     * state is left as it was.
     */
    method EnterDeepSleep(backendStopped: bool)
      requires Valid()
      modifies stt`isRunning, timers`conversation, timers`idle, states`currentState, states`invoked
      ensures Valid()
      ensures !stt.isRunning && timers.conversation == Timeouts.Empty
      ensures backendStopped ==> State() == DeepSleep && timers.idle == Timeouts.Empty
      ensures !backendStopped ==>
        && State() == old(State()) && states.invoked == old(states.invoked)
        && timers.idle == Timeouts.Armed(timers.now + timers.idleTimeout)
    {
      stt.Stop();
      timers.StopAllTimers();
      if !backendStopped {
        timers.StartIdleTimer();
        return;
      }
      states.SetState(DeepSleep, None);
    }

    /** `_on_conversation_timeout`: thirty seconds of silence end in light sleep. */
    method OnConversationTimeout()
      requires Valid()
      modifies stt`isRunning, timers`conversation, timers`idle, states`currentState, states`invoked, this`sleepSignals
      ensures Valid()
      ensures State() == LightSleep && !stt.isRunning && sleepSignals == old(sleepSignals) + 1
      ensures timers.conversation == Timeouts.Empty && timers.idle == Timeouts.Armed(timers.now + timers.idleTimeout)
    {
      EnterLightSleep();
    }

    /** `_on_idle_timeout`: five idle minutes try deep sleep. */
    method OnIdleTimeout(backendStopped: bool)
      requires Valid()
      modifies stt`isRunning, timers`conversation, timers`idle, states`currentState, states`invoked
      ensures Valid()
      ensures !stt.isRunning && timers.conversation == Timeouts.Empty
      ensures backendStopped ==> State() == DeepSleep && timers.idle == Timeouts.Empty
      ensures !backendStopped ==>
        State() == old(State()) && timers.idle == Timeouts.Armed(timers.now + timers.idleTimeout)
    {
      EnterDeepSleep(backendStopped);
    }

    /**
     * `_on_wake_word_detected`, where `backendRestarted` is what restarting
     * the Ollama service gave (asked only in deep sleep) and `streamOpened`
     * whether speech recognition could be started (asked only when it is
     * not running). While a conversation is under way nothing happens.
     * Otherwise the idle timer is cancelled; a failed restart from deep
     * sleep stops there; speech recognition is started unless it already
     * runs; and the state becomes "listening" unless starting it failed.
     */
    method OnWakeWord(backendRestarted: bool, streamOpened: bool)
      requires Valid()
      modifies timers`idle, stt`isRunning, stt`isPaused, states`currentState, states`invoked
      ensures Valid()
      ensures Active(old(State())) ==>
        && timers.idle == old(timers.idle) && State() == old(State()) && states.invoked == old(states.invoked)
        && stt.isRunning == old(stt.isRunning) && stt.isPaused == old(stt.isPaused)
      ensures !Active(old(State())) ==> timers.idle == Timeouts.Empty
      ensures !Active(old(State())) && old(State()) == DeepSleep && !backendRestarted ==>
        && State() == DeepSleep && states.invoked == old(states.invoked)
        && stt.isRunning == old(stt.isRunning) && stt.isPaused == old(stt.isPaused)
      ensures !Active(old(State())) && (old(State()) != DeepSleep || backendRestarted) ==>
        if old(stt.isRunning) then
          State() == Listening && stt.isRunning && stt.isPaused == old(stt.isPaused)
        else if streamOpened then
          State() == Listening && stt.isRunning && !stt.isPaused
        else
          State() == old(State()) && states.invoked == old(states.invoked) &&
          !stt.isRunning && stt.isPaused == old(stt.isPaused)
    {
      var current := states.GetState();
      if Active(current) {
        return;
      }
      timers.ResetIdleTimer();
      if states.IsState(DeepSleep) {
        if !backendRestarted {
          return;
        }
      }
      if !stt.isRunning {
        var started := stt.Start(streamOpened);
        if !started {
          return;
        }
      }
      states.SetState(Listening, None);
    }

    /**
     * `_on_transcription_received`: heard only in "listening" when no turn
     * is being processed; otherwise the transcription is dropped.
     */
    method OnTranscription(text: string)
      requires Valid()
      modifies stt`isPaused, timers`conversation, this`isDismissalPending, this`responseQueue
      ensures Valid()
      ensures !(old(State()) == Listening && !isProcessing) ==>
        && stt.isPaused == old(stt.isPaused) && timers.conversation == old(timers.conversation)
        && isDismissalPending == old(isDismissalPending) && responseQueue == old(responseQueue)
      ensures old(State()) == Listening && !isProcessing ==>
        && stt.isPaused
        && isDismissalPending == (old(isDismissalPending) ||
                                  Dismissal.Dismisses(detector.compiledPatterns, detector.search, text))
        && (Strip(text) != [] ==>
              timers.conversation == Timeouts.Empty && responseQueue == old(responseQueue) + [Strip(text)])
        && (Strip(text) == [] ==>
              timers.conversation == old(timers.conversation) && responseQueue == old(responseQueue))
    {
      if states.IsState(Listening) && !isProcessing {
        AcceptTranscription(text);
      }
    }

    /**
     * An accepted transcription: recording is paused, a dismissal sets the
     * pending flag, and text that is not blank cancels the conversation
     * timer and is queued once, stripped.
     */
    method AcceptTranscription(text: string)
      requires Valid() && State() == Listening
      modifies stt`isPaused, timers`conversation, this`isDismissalPending, this`responseQueue
      ensures Valid()
      ensures stt.isPaused
      ensures isDismissalPending == (old(isDismissalPending) ||
                                     Dismissal.Dismisses(detector.compiledPatterns, detector.search, text))
      ensures Strip(text) != [] ==>
        timers.conversation == Timeouts.Empty && responseQueue == old(responseQueue) + [Strip(text)]
      ensures Strip(text) == [] ==>
        timers.conversation == old(timers.conversation) && responseQueue == old(responseQueue)
    {
      stt.PauseRecording();
      NoteDismissal(text);
      QueueInput(Strip(text));
    }

    /** A transcription that is a dismissal raises the pending flag; the flag is never lowered here. */
    method NoteDismissal(text: string)
      requires Valid()
      modifies this`isDismissalPending
      ensures isDismissalPending == (old(isDismissalPending) ||
                                     Dismissal.Dismisses(detector.compiledPatterns, detector.search, text))
    {
      var dismissal := detector.IsDismissal(text);
      if dismissal {
        isDismissalPending := true;
      }
    }

    /** Stripped text that is not empty cancels the conversation timer and is queued once. */
    method QueueInput(stripped: string)
      requires Valid()
      modifies timers`conversation, this`responseQueue
      ensures Valid()
      ensures stripped != [] ==>
        timers.conversation == Timeouts.Empty && responseQueue == old(responseQueue) + [stripped]
      ensures stripped == [] ==>
        timers.conversation == old(timers.conversation) && responseQueue == old(responseQueue)
    {
      if stripped != [] {
        timers.ResetConversationTimer();
        responseQueue := responseQueue + [stripped];
      }
    }

    /**
     * The first half of `_handle_user_input`: the flag is raised, the state
     * becomes "processing" and the user's words join the history, stamped
     * with `clock`.
     */
    method BeginTurn(userInput: string, clock: real)
      requires Valid()
      modifies this`isProcessing, states`currentState, states`invoked, history`entries
      ensures Valid()
      ensures isProcessing && State() == Processing
      ensures history.entries ==
        KeepNewest(old(history.entries) + [Conversation.Entry("user", userInput, clock, map[])], history.maxEntries)
    {
      isProcessing := true;
      states.SetState(Processing, None);
      var entry := history.AddUserMessage(userInput, map[], clock);
    }

    /**
     * The second half of `_handle_user_input`, once the language model has
     * answered: a non-empty reply joins the history before anything that
     * can raise; a failure of any kind goes back to "listening" with the
     * recording still as it was; otherwise the reply's audio
     * starts playing, whose start (`on_start`) sets "speaking" and pauses
     * recording; a synthesised file that is gone by then starts nothing and
     * leaves the state alone. The flag is lowered in every case.
     */
    method EndTurn(outcome: TurnOutcome, clock: real)
      requires Valid()
      modifies this`isProcessing, states`currentState, states`invoked, history`entries, stt`isPaused
      modifies player`state, player`isPlaying, player`isLooping, player`currentFile
      ensures Valid()
      ensures !isProcessing
      ensures TurnFails(outcome) ==> State() == Listening && stt.isPaused == old(stt.isPaused)
      ensures outcome.text == [] ==> history.entries == old(history.entries)
      ensures outcome.text != [] ==>
        history.entries == KeepNewest(old(history.entries) + [Conversation.Entry("assistant", outcome.text, clock, map[])],
                                      history.maxEntries)
      ensures !TurnFails(outcome) && outcome.fileExists ==>
        && State() == Speaking && stt.isPaused
        && player.isPlaying && player.currentFile == outcome.audio
      ensures !TurnFails(outcome) && !outcome.fileExists ==>
        && State() == old(State()) && states.invoked == old(states.invoked)
        && stt.isPaused == old(stt.isPaused) && player.isPlaying == old(player.isPlaying)
    {
      if outcome.text != [] {
        var entry := history.AddAssistantMessage(outcome.text, map[], clock);
      }
      if TurnFails(outcome) {
        states.SetState(Listening, None);
      } else {
        PlayResponse(outcome.audio.value, outcome.fileExists);
      }
      isProcessing := false;
    }

    /**
     * `_play_response` up to the start of playback: the audio starts
     * without blocking and its `on_start` sets "speaking" and pauses
     * recording; when the file is gone nothing starts and nothing changes.
     */
    method PlayResponse(audioFile: string, fileExists: bool)
      requires Valid()
      modifies states`currentState, states`invoked, stt`isPaused
      modifies player`state, player`isPlaying, player`isLooping, player`currentFile
      ensures Valid()
      ensures fileExists ==>
        && State() == Speaking && stt.isPaused
        && player.isPlaying && player.currentFile == Some(audioFile)
      ensures !fileExists ==>
        && State() == old(State()) && states.invoked == old(states.invoked)
        && stt.isPaused == old(stt.isPaused) && player.isPlaying == old(player.isPlaying)
    {
      var started := player.Play(audioFile, fileExists, false, true);
      if started {
        states.SetState(Speaking, None);
        stt.PauseRecording();
      }
    }

    /** `_handle_user_input`: both halves of a turn, one after the other. */
    method HandleUserInput(userInput: string, clock: real, outcome: TurnOutcome)
      requires Valid()
      modifies this`isProcessing, states`currentState, states`invoked, history`entries, stt`isPaused
      modifies player`state, player`isPlaying, player`isLooping, player`currentFile
      ensures Valid()
      ensures !isProcessing
      ensures TurnFails(outcome) ==> State() == Listening && stt.isPaused == old(stt.isPaused)
      ensures !TurnFails(outcome) && outcome.fileExists ==> State() == Speaking && stt.isPaused
      ensures !TurnFails(outcome) && !outcome.fileExists ==> State() == Processing
      ensures var withUser :=
        KeepNewest(old(history.entries) + [Conversation.Entry("user", userInput, clock, map[])], history.maxEntries);
        && (outcome.text == [] ==> history.entries == withUser)
        && (outcome.text != [] ==>
              history.entries == KeepNewest(withUser + [Conversation.Entry("assistant", outcome.text, clock, map[])],
                                            history.maxEntries))
    {
      BeginTurn(userInput, clock);
      EndTurn(outcome, clock);
    }

    /**
     * One pass of `_process_responses`: the oldest queued input is taken
     * and, when it is not blank and no turn is under way, handled.
     */
    method ProcessResponsesStep(clock: real, outcome: TurnOutcome)
      requires Valid()
      modifies this`isProcessing, this`responseQueue, states`currentState, states`invoked, history`entries, stt`isPaused
      modifies player`state, player`isPlaying, player`isLooping, player`currentFile
      ensures Valid()
      ensures old(responseQueue) == [] ==> responseQueue == [] && State() == old(State())
      ensures old(responseQueue) != [] ==> responseQueue == old(responseQueue)[1..]
      ensures old(responseQueue) != [] && Strip(old(responseQueue)[0]) != [] && !old(isProcessing) ==>
        var withUser := KeepNewest(old(history.entries) + [Conversation.Entry("user", Strip(old(responseQueue)[0]), clock, map[])],
                                   history.maxEntries);
        && !isProcessing
        && (TurnFails(outcome) ==> State() == Listening && stt.isPaused == old(stt.isPaused))
        && (!TurnFails(outcome) && outcome.fileExists ==> State() == Speaking && stt.isPaused)
        && (!TurnFails(outcome) && !outcome.fileExists ==> State() == Processing)
        && (outcome.text == [] ==> history.entries == withUser)
        && (outcome.text != [] ==>
              history.entries == KeepNewest(withUser + [Conversation.Entry("assistant", outcome.text, clock, map[])],
                                            history.maxEntries))
      ensures !(old(responseQueue) != [] && Strip(old(responseQueue)[0]) != [] && !old(isProcessing)) ==>
        State() == old(State()) && isProcessing == old(isProcessing) && history.entries == old(history.entries)
    {
      if responseQueue == [] {
        return;
      }
      var userInput := responseQueue[0];
      responseQueue := responseQueue[1..];
      if Strip(userInput) != [] && !isProcessing {
        HandleUserInput(Strip(userInput), clock, outcome);
      }
    }

    /**
     * `on_finish` of the playback, followed by the end of the playback
     * thread: a pending dismissal is cleared and ends in light sleep;
     * otherwise recording resumes, the state becomes "listening" and the
     * conversation timer is armed.
     */
    method OnPlaybackFinish()
      requires Valid()
      modifies this`isDismissalPending, this`sleepSignals, stt`isRunning, stt`isPaused, stt`frames, stt`isRecording
      modifies timers`conversation, timers`idle, states`currentState, states`invoked, player`state, player`isPlaying
      ensures Valid()
      ensures !isDismissalPending && !player.isPlaying
      ensures old(isDismissalPending) ==>
        && State() == LightSleep && !stt.isRunning && sleepSignals == old(sleepSignals) + 1
        && timers.conversation == Timeouts.Empty && timers.idle == Timeouts.Armed(timers.now + timers.idleTimeout)
      ensures !old(isDismissalPending) ==>
        && State() == Listening && !stt.isPaused && stt.isRunning == old(stt.isRunning)
        && timers.conversation == Timeouts.Armed(timers.now + timers.conversationTimeout)
        && timers.idle == old(timers.idle) && sleepSignals == old(sleepSignals)
    {
      if isDismissalPending {
        isDismissalPending := false;
        EnterLightSleep();
      } else {
        stt.ResumeRecording();
        states.SetState(Listening, None);
        timers.StartConversationTimer();
      }
      player.PlaybackEnded();
    }

    /**
     * The clock advances by `dt`; each timer whose deadline has come runs
     * its handler, the conversation timeout first. `backendStopped` is what
     * stopping the Ollama service gives if the idle timeout runs.
     */
    method Tick(dt: nat, backendStopped: bool)
      requires Valid()
      modifies timers`now, timers`conversation, timers`idle, timers`dispatched
      modifies stt`isRunning, states`currentState, states`invoked, this`sleepSignals
      ensures Valid()
      ensures timers.now == old(timers.now) + dt
      ensures var conversationFires := Timeouts.Step(old(timers.conversation), timers.now).1;
        var idleFires := Timeouts.Step(old(timers.idle), timers.now).1;
        && (!conversationFires && !idleFires ==>
              State() == old(State()) && stt.isRunning == old(stt.isRunning) && sleepSignals == old(sleepSignals))
        && (conversationFires && !idleFires ==> State() == LightSleep && !stt.isRunning)
        && (idleFires && backendStopped ==> State() == DeepSleep && !stt.isRunning)
        && (idleFires && !backendStopped ==>
              && State() == (if conversationFires then LightSleep else old(State()))
              && timers.idle == Timeouts.Armed(timers.now + timers.idleTimeout))
    {
      var conversationFires := Timeouts.Step(timers.conversation, timers.now + dt).1;
      var idleFires := Timeouts.Step(timers.idle, timers.now + dt).1;
      timers.Tick(dt);
      if conversationFires {
        OnConversationTimeout();
      }
      if idleFires {
        OnIdleTimeout(backendStopped);
      }
    }

    /**
     * `start`, where `initialized` is what `initialize` gave and the other
     * outcomes are as for the handlers: "listening" starts speech
     * recognition and listens, "deep_sleep" tries deep sleep, and any other
     * mode enters light sleep.
     */
    method Start(startMode: string, initialized: bool, streamOpened: bool, backendStopped: bool) returns (ok: bool)
      requires Valid()
      modifies this`isRunning, this`sleepSignals, stt`isRunning, stt`isPaused
      modifies timers`conversation, timers`idle, states`currentState, states`invoked
      ensures Valid()
      ensures !initialized ==>
        && !ok && State() == old(State()) && states.invoked == old(states.invoked)
        && isRunning == old(isRunning) && sleepSignals == old(sleepSignals)
        && stt.isRunning == old(stt.isRunning) && stt.isPaused == old(stt.isPaused)
        && timers.conversation == old(timers.conversation) && timers.idle == old(timers.idle)
      ensures initialized ==> isRunning
      ensures initialized && startMode == Listening ==>
        ok == streamOpened && (streamOpened ==> State() == Listening && stt.isRunning && !stt.isPaused)
      ensures initialized && startMode == DeepSleep ==>
        ok && (backendStopped ==> State() == DeepSleep) && (!backendStopped ==> State() == old(State()))
      ensures initialized && startMode != Listening && startMode != DeepSleep ==>
        ok && State() == LightSleep && timers.idle == Timeouts.Armed(timers.now + timers.idleTimeout)
    {
      if !initialized {
        return false;
      }
      isRunning := true;
      if startMode == Listening {
        var started := stt.Start(streamOpened);
        if !started {
          return false;
        }
        states.SetState(Listening, None);
      } else if startMode == DeepSleep {
        EnterDeepSleep(backendStopped);
      } else {
        EnterLightSleep();
      }
      return true;
    }

    /**
     * `stop`: the controller stops running, both timers are cancelled and
     * speech recognition and playback stop; the state is left as it is.
     */
    method Stop()
      requires Valid()
      modifies this`isRunning, timers`conversation, timers`idle, stt`isRunning
      modifies player`state, player`isPlaying, player`isLooping
      ensures Valid()
      ensures !isRunning && !stt.isRunning && !player.isPlaying
      ensures timers.conversation == Timeouts.Empty && timers.idle == Timeouts.Empty
      ensures State() == old(State())
    {
      isRunning := false;
      timers.StopAllTimers();
      stt.Stop();
      player.Stop();
    }
  }
}
