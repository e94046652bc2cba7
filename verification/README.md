# Talking-Buddy control logic in Dafny

Talking-Buddy is a voice assistant for a Raspberry Pi 5. Its Python program
(`rpi5-chatbot/src`) listens for a wake signal and records speech, transcribes it
with whisper.cpp, asks a local Ollama model for a reply, speaks the reply with
Piper and goes back to listening. After a period of silence it drops into light
sleep, and later into deep sleep, which stops the LLM backend.

This project models the decision-making part of that program and proves properties
of the model. The model covers:

- **The conversation-mode controller** (`voice_chatbot.py`), module `Chatbot`.
  `VoiceChatbot` is a class that holds its collaborators as objects: the state
  manager, the timeout manager, the recorder, the conversation history, the audio
  player and the dismissal detector. Each event handler is a method whose
  postcondition states the new state of every collaborator it touches.
- **Two named timers** (`timeout_manager.py`), module `Timeouts`. They run on a
  logical clock. Each timer slot is empty, armed with a deadline, or expired.
  `Tick` advances the clock, fires the expired timers and dispatches their
  callbacks.
- **Bounded histories and queries** (`conversation.py`, `ollama_llm.py`), modules
  `Conversation` and `OllamaLlm`. The model includes Python's negative-slice
  semantics (`entries[-n:]`) and the retry loop of `generate_response`. That loop
  runs over an abstract sequence of HTTP outcomes.
- **Text normalisers and name mappers**, modules `WhisperStt`, `OllamaLlm`,
  `PiperTts`, `RunChatbot` and `Dismissal`:
  - transcription cleaning;
  - reply cleaning;
  - TTS text cleaning, including the contraction table;
  - the pt-br model-name mapping;
  - the dismissal matcher.

  Python's `str.strip`, `str.split`, `str.lower` and whitespace collapsing are
  defined once, in module `Text`.
- **Small stateful helpers** (`audio_utils.py`, `whisper_stt.py`), modules
  `AudioUtils` and `WhisperStt`:
  - the audio player's state machine;
  - `StateManager` with its per-state callback lists;
  - `SilenceDetector`;
  - the recorder's pause and resume flags and its per-chunk voice-activity step.
- **Selection rules** (`audio_device_detector.py`, `hardware_monitor.py`), modules
  `AudioDeviceDetector` and `HardwareMonitor`:
  - device scoring, preference lookup and ALSA-name extraction;
  - choosing the best device;
  - platform classification;
  - `ollama ps` parsing;
  - memory-delta availability.
- **Shared definitions**, module `Common`: Option, Python slicing, the
  append-then-keep-newest rule and order-preserving filtering.

Everything outside the program's own logic becomes a parameter of the operation that
needs it: the clock, whether a file exists, the outcome of a subprocess or HTTP
request, the LLM's reply, whether a device stream opened, whether the sleep backend
stopped or restarted, and the regular-expression matcher. Callbacks are recorded as
numbered invocations rather than called. The controller's events are sequential
method calls.

## Model

| member | source | states |
|---|---|---|
| Chatbot.RegisterHandlers | rpi5-chatbot/src/voice_chatbot.py:124-136 | the five state callbacks (listening, processing, speaking, light_sleep, deep_sleep) are each registered exactly once, under their own state, and both timeout handlers are installed |
| Chatbot.VoiceChatbot.constructor | rpi5-chatbot/src/voice_chatbot.py:41-83 | the controller starts in "idle", not running, not processing, no dismissal pending, with an empty input queue, timeouts of 30 s and 300 s, and a history capped at twice the configured size |
| Chatbot.VoiceChatbot.Start | rpi5-chatbot/src/voice_chatbot.py:150-196 | a failed initialisation returns false and changes nothing: state, callbacks run, running flag, sleep signals, recorder and both timers are as before; start mode "listening" reports whether the stream opened and then ends listening with recording on; "deep_sleep" ends in deep sleep only if the backend stopped; any other mode ends in light sleep with the idle timer armed |
| Chatbot.VoiceChatbot.Stop | rpi5-chatbot/src/voice_chatbot.py:198-236 | afterwards the controller, the recorder and the player are all stopped and both timers are disarmed; the mode state is left as it was |
| Chatbot.VoiceChatbot.OnTranscription | rpi5-chatbot/src/voice_chatbot.py:248-275 | outside "listening", or while a turn is processing, nothing changes; otherwise recording is paused and the dismissal flag becomes set exactly when the detector flags the text; non-blank text disarms the conversation timer and is queued once, stripped; blank text queues nothing |
| Chatbot.VoiceChatbot.AcceptTranscription | rpi5-chatbot/src/voice_chatbot.py:255-275 | the accepted branch of the handler: recording paused, the dismissal flag ORed with the detector's verdict, and the stripped text queued once with the conversation timer disarmed iff it is not blank |
| Chatbot.VoiceChatbot.NoteDismissal | rpi5-chatbot/src/voice_chatbot.py:259-264 | the pending-dismissal flag is set when the detector flags the text and is otherwise left as it was (never cleared here) |
| Chatbot.VoiceChatbot.QueueInput | rpi5-chatbot/src/voice_chatbot.py:272-275 | non-empty stripped text is appended to the queue and disarms the conversation timer; empty text changes neither |
| Chatbot.VoiceChatbot.ProcessResponsesStep | rpi5-chatbot/src/voice_chatbot.py:283-296 | one poll of the worker: an empty queue changes nothing; otherwise the head is dequeued, and a turn runs only for non-blank input while no turn is processing, with the stripped input as the user text and the full effect of `_handle_user_input`: processing ends off, the history gains the user entry and then the assistant entry for a non-empty reply, a failed turn ends "listening" with recording as it was, a playing reply ends "speaking" with recording paused, and a missing audio file leaves "processing"; a skipped input changes no state and no history |
| Chatbot.VoiceChatbot.BeginTurn | rpi5-chatbot/src/voice_chatbot.py:301-305 | processing is on, the state is "processing", and the user message is appended to the history under its cap |
| Chatbot.VoiceChatbot.EndTurn | rpi5-chatbot/src/voice_chatbot.py:309-335 | processing always ends off; a non-empty reply is appended to the history as "assistant" (before synthesis, so also when something later raises), an empty one leaves it alone; an exception after the reply, an empty reply or a failed synthesis ends in "listening" without resuming the paused recording; a reply whose audio file exists starts playback and ends "speaking"; one whose file is missing leaves the state where it was |
| Chatbot.VoiceChatbot.HandleUserInput | rpi5-chatbot/src/voice_chatbot.py:298-335 | processing is always off on return; the history gains the user entry and then, for a non-empty reply, the assistant entry, each trimmed to the cap; a failed turn ends "listening" with recording still paused; a turn whose audio plays ends "speaking" with recording paused; a turn whose audio file is missing stays in "processing" |
| Chatbot.VoiceChatbot.PlayResponse | rpi5-chatbot/src/voice_chatbot.py:337-343 | when the file exists, playback starts non-blocking with that file, the state becomes "speaking" and recording is paused; otherwise nothing changes |
| Chatbot.VoiceChatbot.OnPlaybackFinish | rpi5-chatbot/src/voice_chatbot.py:345-361 | the player is idle and the dismissal flag is cleared; with a dismissal pending, the controller enters light sleep (recorder stopped, conversation timer off, idle timer armed, one sleep signal); otherwise recording resumes, the state is "listening" and the conversation timer is armed for its full duration |
| Chatbot.VoiceChatbot.OnWakeWord | rpi5-chatbot/src/voice_chatbot.py:398-426 | a wake while listening, processing or speaking changes nothing; otherwise the idle timer is cancelled; from deep sleep a failed backend restart leaves deep sleep and the recorder untouched; otherwise a running recorder is kept and a stopped one is started, and the state becomes "listening" when the recorder runs (unchanged if its stream failed to open) |
| Chatbot.VoiceChatbot.OnConversationTimeout | rpi5-chatbot/src/voice_chatbot.py:428-431 | the conversation timeout enters light sleep: recorder stopped, conversation timer off, idle timer armed, one sleep signal sent |
| Chatbot.VoiceChatbot.OnIdleTimeout | rpi5-chatbot/src/voice_chatbot.py:433-436 | the idle timeout tries deep sleep: recorder stopped and conversation timer off; "deep_sleep" with both timers off iff the backend stopped, otherwise the state is kept and the idle timer is re-armed |
| Chatbot.VoiceChatbot.EnterLightSleep | rpi5-chatbot/src/voice_chatbot.py:438-455 | the recorder is stopped, the conversation timer disarmed, the idle timer armed for its full duration, the state is "light_sleep" and one sleep signal is sent |
| Chatbot.VoiceChatbot.EnterDeepSleep | rpi5-chatbot/src/voice_chatbot.py:457-473 | the recorder is stopped and the conversation timer disarmed; a stopped backend gives "deep_sleep" with the idle timer off; a failed stop keeps the state, notifies nobody and re-arms the idle timer |
| Chatbot.VoiceChatbot.Tick | rpi5-chatbot/src/timeout_manager.py:165-183 | advancing the clock fires exactly the expired timers and runs their handlers: no expiry changes nothing; a conversation expiry gives light sleep; an idle expiry gives deep sleep when the backend stops and re-arms the idle timer when it does not |
| Timeouts.TimeoutManager.constructor | rpi5-chatbot/src/timeout_manager.py:22-47 | both slots are empty, no callback is registered, nothing has been dispatched, with the given durations (30 s and 300 s by default) |
| Timeouts.TimeoutManager.RegisterConversationCallback | rpi5-chatbot/src/timeout_manager.py:49-56 | a conversation callback is installed |
| Timeouts.TimeoutManager.RegisterIdleCallback | rpi5-chatbot/src/timeout_manager.py:58-65 | an idle callback is installed |
| Timeouts.TimeoutManager.StartConversationTimer | rpi5-chatbot/src/timeout_manager.py:67-87 | whatever was in the slot is replaced by one timer armed for now plus the duration, so exactly one conversation timer is live |
| Timeouts.TimeoutManager.ResetConversationTimer | rpi5-chatbot/src/timeout_manager.py:89-99 | the conversation slot is empty and inactive afterwards, armed or not before |
| Timeouts.TimeoutManager.StopConversationTimer | rpi5-chatbot/src/timeout_manager.py:101-107 | the conversation slot is empty and inactive afterwards, armed or not before |
| Timeouts.TimeoutManager.StartIdleTimer | rpi5-chatbot/src/timeout_manager.py:109-128 | the idle slot holds exactly one timer armed for now plus the idle duration, independently of the conversation slot |
| Timeouts.TimeoutManager.ResetIdleTimer | rpi5-chatbot/src/timeout_manager.py:130-140 | the idle slot is empty and inactive afterwards |
| Timeouts.TimeoutManager.StopIdleTimer | rpi5-chatbot/src/timeout_manager.py:142-148 | the idle slot is empty and inactive afterwards |
| Timeouts.TimeoutManager.StopAllTimers | rpi5-chatbot/src/timeout_manager.py:150-163 | neither timer is active afterwards |
| Timeouts.TimeoutManager.IsConversationTimerActive | rpi5-chatbot/src/timeout_manager.py:155-158 | active exactly when a timer is held that has not run yet; its deadline then still lies ahead of the clock |
| Timeouts.TimeoutManager.IsIdleTimerActive | rpi5-chatbot/src/timeout_manager.py:160-163 | active exactly when an idle timer is held that has not run yet; its deadline then still lies ahead of the clock |
| Timeouts.TimeoutManager.Tick | rpi5-chatbot/src/timeout_manager.py:165-183 | the clock advances by the step; each slot moves by one timer `Step`, the same step a `Wait` takes in `Run`; a callback is dispatched only for a timer that expired in this step and only when one is registered (a missing callback is skipped, conversation before idle) |
| Timeouts.TimeoutManager.ApplyToConversation | rpi5-chatbot/src/timeout_manager.py:67-183 | each operation of a `Run` trace, carried out by the manager's own start, reset, stop and clock calls, moves the conversation slot and the clock and fires exactly as that step of `Run` does, so the lemmas about `Run` are lemmas about the manager |
| Timeouts.TimeoutManager.ApplyToIdle | rpi5-chatbot/src/timeout_manager.py:109-183 | each operation of a `Run` trace, carried out by the manager's idle start, reset, stop and clock calls, moves the idle slot and the clock and fires exactly as that step of `Run` does |
| Timeouts.StepFiresOnce | rpi5-chatbot/src/timeout_manager.py:165-183 | a timer that fires is no longer live and does not fire again on a later step |
| Timeouts.FiresAtMostOncePerStart | rpi5-chatbot/src/timeout_manager.py:67-87 | over any run of start/reset/stop/wait operations a slot fires at most once per start (plus once if it was live at the outset) |
| Timeouts.DeadSlotNeverFires | rpi5-chatbot/src/timeout_manager.py:89-107 | a slot that is not live and is never started never fires |
| Timeouts.CancelledTimerNeverFires | rpi5-chatbot/src/timeout_manager.py:89-107 | a timer reset or stopped before its duration elapses never fires, however the time before the cancellation is split into waits and whatever follows short of a new start |
| Timeouts.FullDurationFires | rpi5-chatbot/src/timeout_manager.py:67-87 | a started timer followed by waits adding up to at least its duration fires exactly once, however the time is split, no earlier than its deadline and no later than the end of the waits |
| Timeouts.WaitsBeforeDeadline | rpi5-chatbot/src/timeout_manager.py:165-183 | waits ending before an armed timer's deadline fire nothing and leave the timer armed for what follows |
| Timeouts.WaitsReachDeadline | rpi5-chatbot/src/timeout_manager.py:165-183 | waits reaching an armed timer's deadline fire it exactly once, at or after the deadline and at or before the end of the waits |
| Timeouts.RestartPostponesDeadline | rpi5-chatbot/src/timeout_manager.py:74-85 | restarting a running timer cancels the old deadline: nothing fires one tick before the new deadline, and it fires exactly at it |
| Conversation.NewEntryFalsyStamp | rpi5-chatbot/src/conversation.py:14-18 | a non-zero timestamp fixes the entry whatever the clock says; a zero timestamp is falsy and gives the same entry as a missing one, which takes the clock |
| Conversation.ToDict | rpi5-chatbot/src/conversation.py:20-27 | the dictionary carries all four keys |
| Conversation.FromDict | rpi5-chatbot/src/conversation.py:29-34 | a dictionary gives an entry iff it has role and content, which are kept; missing metadata becomes empty |
| Conversation.DictRoundTrip | rpi5-chatbot/src/conversation.py:14-34 | reading back a written entry gives the same entry, except that a zero timestamp is replaced by the clock |
| Conversation.CountRolesDisjoint | rpi5-chatbot/src/conversation.py:117-118 | the number of entries with one role plus the number with another role never exceeds the number of entries |
| Conversation.StatsOf | rpi5-chatbot/src/conversation.py:112-134 | an empty history gives all zeros; otherwise total equals the length, user and assistant counts are the role counts and together at most the total, and the details carry the first and last timestamps and their span in minutes |
| Conversation.ConversationManager.GetStats | rpi5-chatbot/src/conversation.py:112-134 | the statistics are those of the current entries and session |
| Conversation.ConversationManager.constructor | rpi5-chatbot/src/conversation.py:47-55 | an empty history with the given cap and session |
| Conversation.ConversationManager.AddEntry | rpi5-chatbot/src/conversation.py:57-73 | the new entry, stamped with the clock, is appended last and only the newest max_entries are kept |
| Conversation.ConversationManager.AddUserMessage | rpi5-chatbot/src/conversation.py:75-77 | as AddEntry, with role "user" |
| Conversation.ConversationManager.AddAssistantMessage | rpi5-chatbot/src/conversation.py:79-81 | as AddEntry, with role "assistant" |
| Conversation.AddEntryBounded | rpi5-chatbot/src/conversation.py:63-67 | with a cap of at least one the history never exceeds the cap, its last entry is the new one, and the rest is the newest suffix of the old history |
| Conversation.AddEntryZeroCapKeepsAll | rpi5-chatbot/src/conversation.py:66-67 | with a cap of zero the `[-0:]` slice keeps every entry |
| Conversation.ConversationManager.RecentEntries | rpi5-chatbot/src/conversation.py:83-85 | a positive count gives the last min(count, length) entries in order; zero gives the whole list; a negative count drops that many from the front (Python slicing) |
| Conversation.ConversationManager.ContextForLlm | rpi5-chatbot/src/conversation.py:87-90 | one role/content message per recent entry, in the same order |
| Conversation.ConversationManager.ClearHistory | rpi5-chatbot/src/conversation.py:105-110 | the history is empty |
| Conversation.ConversationManager.SearchEntries | rpi5-chatbot/src/conversation.py:136-146 | exactly the entries whose content contains the query, in their original order, lower-casing both unless the search is case-sensitive |
| Conversation.CaseInsensitiveQuery | rpi5-chatbot/src/conversation.py:138-144 | a case-insensitive search does not depend on the case of the query |
| Conversation.ConversationManager.EntriesByTimeframe | rpi5-chatbot/src/conversation.py:148-151 | exactly the entries no older than the given number of minutes, in history order with repeats kept (the ordered `Filter` of the history); an entry is returned iff it is in the history and recent enough |
| Conversation.ConversationManager.CleanupOldEntries | rpi5-chatbot/src/conversation.py:250-261 | the history keeps exactly the entries not older than the given number of hours, in order |
| Conversation.FilterKeepsExactly | rpi5-chatbot/src/conversation.py:250-255 | an entry survives the age filter iff it was present and is recent enough |
| Common.KeepNewest | rpi5-chatbot/src/conversation.py:66-67 | what is kept is always the newest part of the list, in order; with a positive cap it holds min(length, cap) items, a cap of 0 keeps everything (`[-0:]`), a negative cap drops that many of the oldest |
| Common.AppendThenTrim | rpi5-chatbot/src/ollama_llm.py:178-188 | append-then-trim with a positive cap keeps min(length + 1, cap) items, the appended one last, preceded by the newest of the old items |
| Common.NegativeSliceIsSuffix | rpi5-chatbot/src/conversation.py:85 | `s[-n:]` for n of at least one is the last min(n, length) items |
| Common.ZeroSliceIsWhole | rpi5-chatbot/src/conversation.py:85 | `s[-0:]` is the whole list |
| Dismissal.DismissalDetector.constructor | rpi5-chatbot/src/dismissal_detector.py:15-62 | the detector starts with the shipped Portuguese and English pattern lists, Portuguese compiled first |
| Dismissal.PrepareTrimmed | rpi5-chatbot/src/dismissal_detector.py:77 | the text the patterns see has no surrounding whitespace |
| Dismissal.PrepareIgnoresCaseAndPadding | rpi5-chatbot/src/dismissal_detector.py:77 | the text the patterns see does not change when the input is padded with whitespace or lower-cased |
| Dismissal.DismissalDetector.IsDismissal | rpi5-chatbot/src/dismissal_detector.py:64-84 | the verdict is true iff the text is not empty and some compiled pattern matches its lower-cased, stripped form |
| Dismissal.DismissalDetector.GetMatchedPatterns | rpi5-chatbot/src/dismissal_detector.py:86-108 | the matching patterns in compiled order, which is the Portuguese matches followed by the English ones; empty text matches nothing |
| Dismissal.DismissesIffMatched | rpi5-chatbot/src/dismissal_detector.py:79-108 | a text is a dismissal iff its list of matched patterns is not empty |
| Dismissal.MatchedPortugueseFirst | rpi5-chatbot/src/dismissal_detector.py:102-106 | matches against the compiled list are the Portuguese matches followed by the English matches |
| Dismissal.DismissalIgnoresCaseAndPadding | rpi5-chatbot/src/dismissal_detector.py:60-84 | whether a non-empty text is a dismissal does not depend on surrounding whitespace or letter case |
| Dismissal.DismissalDetector.AddCustomPattern | rpi5-chatbot/src/dismissal_detector.py:110-127 | the pattern is appended to the Portuguese list iff the language is "pt", to the English list otherwise, and the compiled list stays Portuguese followed by English |
| Dismissal.LeadingWordDismisses | rpi5-chatbot/src/dismissal_detector.py:64-84 | with the default lists, an utterance whose prepared text starts with the word of a `\bw\b` pattern, standing alone, is a dismissal when the matcher searches that pattern as the word |
| Dismissal.TchauExamples | rpi5-chatbot/src/dismissal_detector.py:135-156 | the example-table lines "tchau", "Tchau, obrigado!" and "tchau ou não?" are dismissals when `\btchau\b` is searched as a word |
| OllamaLlm.BuildMessages | rpi5-chatbot/src/ollama_llm.py:145-162 | the last message is the user input unchanged; a system message comes first iff the system prompt is given and not blank; at most two messages |
| OllamaLlm.CleanResponse | rpi5-chatbot/src/ollama_llm.py:164-176 | the reply has whitespace runs collapsed to one space and nothing to strip; a collapsed reply ending in "..." or "…" loses its last three characters and is stripped again |
| OllamaLlm.DotsOnlyReplyIsEmpty | rpi5-chatbot/src/ollama_llm.py:173-174 | a reply of just "..." cleans to the empty string |
| OllamaLlm.EllipsisCharCutsThree | rpi5-chatbot/src/ollama_llm.py:173-174 | a reply ending in the one-character "…" loses three characters, so "Hello…" becomes "Hel" |
| OllamaLlm.WithMessage | rpi5-chatbot/src/ollama_llm.py:178-188 | the message is appended last, preceded by the newest of the old messages in order; below 20 entries nothing is dropped; from 20 on the result holds exactly 20 |
| OllamaLlm.OllamaClient.constructor | rpi5-chatbot/src/ollama_llm.py:13-15 | the history starts empty |
| OllamaLlm.OllamaClient.AddToHistory | rpi5-chatbot/src/ollama_llm.py:178-188 | the history becomes the message appended and trimmed to the newest 20 |
| OllamaLlm.OllamaClient.ClearHistory | rpi5-chatbot/src/ollama_llm.py:190-193 | the history is empty |
| OllamaLlm.OllamaClient.GetHistory | rpi5-chatbot/src/ollama_llm.py:195-197 | the returned list equals the history |
| OllamaLlm.AttemptVerdict | rpi5-chatbot/src/ollama_llm.py:28-96 | an attempt retries only when retries remain; a connection error ends the run at once with the no-connection reply |
| OllamaLlm.AnsweredAttempt | rpi5-chatbot/src/ollama_llm.py:43-56 | an attempt answers iff it got status 200 with non-blank content, and its reply is then that content cleaned |
| OllamaLlm.AttemptsBounded | rpi5-chatbot/src/ollama_llm.py:17-98 | with max_retries of at least zero a run makes between 1 and max_retries + 1 attempts and always returns a string; a negative max_retries makes no attempt; a connection error on the first attempt ends the run after it |
| OllamaLlm.AnsweredMeansContent | rpi5-chatbot/src/ollama_llm.py:43-56 | a run is answered only when its last attempt got status 200 with non-blank content, and the reply is that content cleaned |
| OllamaLlm.OllamaClient.GenerateResponse | rpi5-chatbot/src/ollama_llm.py:17-98 | the returned string is the run's reply; the history gains the user prompt and then the reply exactly when the run is answered, and is untouched otherwise |
| WhisperStt.DropTrailing | rpi5-chatbot/src/whisper_stt.py:357 | the result is the longest prefix not ending in the character, with only that character removed |
| WhisperStt.CollapseTrailingDots | rpi5-chatbot/src/whisper_stt.py:357 | a trailing run of periods becomes exactly one period and nothing before it changes; text not ending in a period is unchanged |
| WhisperStt.CapitalizeShape | rpi5-chatbot/src/whisper_stt.py:360-361 | capitalising a normalised text keeps it normalised, empty iff it was, ending in '.' iff it did (and not in ".." when it did not), starting with the upper-case form of a lower-case first letter, and unchanged otherwise |
| WhisperStt.CapitalizeIdempotent | rpi5-chatbot/src/whisper_stt.py:360-361 | capitalising twice is capitalising once; only the first character changes, possibly into two ("ß" into "SS"), so the text never shrinks |
| WhisperStt.CleanTranscription | rpi5-chatbot/src/whisper_stt.py:344-363 | the result has single spaces and nothing to strip; it is empty iff the input is blank; it ends in exactly one period iff the collapsed text ends in a period; its first character is the collapsed text's, upper-cased when it was lowercase |
| WhisperStt.CleanTranscriptionIdempotent | rpi5-chatbot/src/whisper_stt.py:344-363 | cleaning a cleaned transcription changes nothing |
| WhisperStt.Recorder.constructor | rpi5-chatbot/src/whisper_stt.py:42-69 | not running, not recording, not paused, with an empty buffer and the given thresholds and audio format |
| WhisperStt.Recorder.Start | rpi5-chatbot/src/whisper_stt.py:95-149 | start succeeds iff the stream opens, and then the recorder runs unpaused; a failed open changes nothing |
| WhisperStt.Recorder.Stop | rpi5-chatbot/src/whisper_stt.py:151-172 | the recorder is not running |
| WhisperStt.Recorder.PauseRecording | rpi5-chatbot/src/whisper_stt.py:174-179 | the recorder is paused (a no-op when it already was) |
| WhisperStt.Recorder.ResumeRecording | rpi5-chatbot/src/whisper_stt.py:181-189 | the recorder is not paused; resuming from pause also discards the buffer and any recording in progress; resuming when not paused changes nothing |
| WhisperStt.Recorder.VadStep | rpi5-chatbot/src/whisper_stt.py:191-247 | when stopped or paused, a chunk changes nothing; a loud chunk starts (with a buffer of just that chunk) or continues a recording and stamps the time; a quiet chunk is dropped when not recording, appended while the silence is under the limit, and otherwise ends the recording, emptying the buffer and handing it to transcription when long enough |
| WhisperStt.Recorder.ProcessRecordedAudio | rpi5-chatbot/src/whisper_stt.py:249-289 | the buffer is transcribed iff it is not empty and frames × chunk / rate is at least the minimum length |
| WhisperStt.DefaultGateNeedsEightChunks | rpi5-chatbot/src/whisper_stt.py:251-258 | with 1024-frame chunks at 16 kHz and a 0.5 s minimum, a recording is transcribed iff it has at least eight chunks |
| WhisperStt.FindDeviceIndexByName | rpi5-chatbot/src/whisper_stt.py:71-93 | the result is the first input-capable device whose name contains "USB", and only when the audio system is open and the configured name contains "USB"; otherwise none |
| AudioUtils.AudioPlayer.constructor | rpi5-chatbot/src/audio_utils.py:33-50 | the player is idle with no file, neither playing nor looping |
| AudioUtils.AudioPlayer.Play | rpi5-chatbot/src/audio_utils.py:52-88 | a missing file returns false and changes nothing; otherwise the file becomes current; non-blocking play returns true and is playing; blocking play returns the playback's success and ends idle |
| AudioUtils.AudioPlayer.PlaybackEnded | rpi5-chatbot/src/audio_utils.py:113-130 | when the playback thread ends the player is idle and not playing |
| AudioUtils.AudioPlayer.PlayLoop | rpi5-chatbot/src/audio_utils.py:132-168 | looping starts iff the file exists, and then the file is current and the player is playing and looping; a missing file changes nothing |
| AudioUtils.AudioPlayer.StopLoop | rpi5-chatbot/src/audio_utils.py:189-204 | a looping player becomes idle and stops; otherwise nothing changes |
| AudioUtils.AudioPlayer.Stop | rpi5-chatbot/src/audio_utils.py:206-221 | afterwards the player is idle, not playing and not looping, so only the mixer can still report it busy; it is a no-op when it was neither playing nor looping |
| AudioUtils.AudioPlayer.Pause | rpi5-chatbot/src/audio_utils.py:223-228 | PLAYING becomes PAUSED; every other state is kept |
| AudioUtils.AudioPlayer.Resume | rpi5-chatbot/src/audio_utils.py:230-235 | PAUSED becomes PLAYING; every other state is kept |
| AudioUtils.AudioPlayer.IsBusy | rpi5-chatbot/src/audio_utils.py:241-243 | the player's own playback always counts as busy; without it, busy exactly when the mixer reports sound; after `stop` only the mixer can keep it busy |
| AudioUtils.StateManager.constructor | rpi5-chatbot/src/audio_utils.py:253-256 | the state starts as "idle" with no callbacks |
| AudioUtils.StateManager.SetState | rpi5-chatbot/src/audio_utils.py:258-272 | the new state is current, `get_state` reports it and `is_state` holds for it alone; each of its callbacks is invoked once, in registration order, with the old state, the new state and the data (empty when none is given); a raising callback does not stop the others |
| AudioUtils.StateManager.GetState | rpi5-chatbot/src/audio_utils.py:274-277 | reports the current state, which after `set_state(s)` is s |
| AudioUtils.StateManager.IsState | rpi5-chatbot/src/audio_utils.py:279-281 | holds exactly when `get_state` reports the given state, so after `set_state(s)` it holds for s and for no other state |
| AudioUtils.RegisteredLastIsCalledLast | rpi5-chatbot/src/audio_utils.py:258-287 | a callback registered after the others is called after them by `set_state`, and the calls for the earlier ones are unchanged |
| AudioUtils.CalledIffRegistered | rpi5-chatbot/src/audio_utils.py:258-287 | `set_state` calls a callback exactly when it is registered for the new state |
| AudioUtils.StateManager.RegisterCallback | rpi5-chatbot/src/audio_utils.py:283-287 | the callback is appended to the state's list, creating it if needed; other states are untouched |
| AudioUtils.StateManager.UnregisterCallback | rpi5-chatbot/src/audio_utils.py:289-295 | the first occurrence of the callback is removed from that state's list; an unknown state changes nothing |
| AudioUtils.RemoveFirst | rpi5-chatbot/src/audio_utils.py:293-295 | an absent callback leaves the list unchanged; a present one is removed exactly once |
| AudioUtils.RemoveFirstAt | rpi5-chatbot/src/audio_utils.py:293-295 | the removed item is the first occurrence and the order of the rest is kept |
| AudioUtils.RegisterUnregister | rpi5-chatbot/src/audio_utils.py:283-295 | unregistering a freshly registered callback restores the list |
| AudioUtils.SilenceDetector.constructor | rpi5-chatbot/src/audio_utils.py:300-306 | no activity yet, not monitoring, no callbacks, with the given threshold |
| AudioUtils.SilenceDetector.StartMonitoring | rpi5-chatbot/src/audio_utils.py:308-315 | monitoring is on |
| AudioUtils.SilenceDetector.StopMonitoring | rpi5-chatbot/src/audio_utils.py:317-324 | monitoring is off |
| AudioUtils.SilenceDetector.UpdateActivity | rpi5-chatbot/src/audio_utils.py:326-328 | the last activity time is the current time |
| AudioUtils.SilenceGrowsWithTime | rpi5-chatbot/src/audio_utils.py:326-334 | the reported silence never decreases as the clock advances; after some activity it grows at the clock's pace from zero at the moment of the activity |
| AudioUtils.SilenceDetector.RegisterCallback | rpi5-chatbot/src/audio_utils.py:336-338 | the callback is appended |
| AudioUtils.SilenceDetector.MonitorStep | rpi5-chatbot/src/audio_utils.py:340-357 | while monitoring, a silence of at least the threshold after some activity calls every callback with the duration and resets the activity time to zero so it does not fire again; otherwise nothing happens |
| PiperTts.ContractionsWellFormed | rpi5-chatbot/src/piper_tts.py:90-112 | every contraction in the table is non-empty and every expansion uses only characters the filter keeps |
| PiperTts.ReplaceWholeWord | rpi5-chatbot/src/piper_tts.py:114-115 | a word that equals a contraction ignoring case is replaced by its expansion |
| PiperTts.ReplaceFirstMatch | rpi5-chatbot/src/piper_tts.py:114-115 | text before the first whole-word match is copied and the match is replaced by the expansion |
| PiperTts.ReplaceNoMatch | rpi5-chatbot/src/piper_tts.py:114-115 | text with no whole-word match is unchanged |
| PiperTts.ExpandAllowed | rpi5-chatbot/src/piper_tts.py:87-115 | expanding the contractions keeps the text within the characters the filter allows |
| PiperTts.Prepared | rpi5-chatbot/src/piper_tts.py:77-115 | after markup removal, filtering and expansion only word characters, whitespace and `.,!?;:()"'-` remain |
| PiperTts.Terminated | rpi5-chatbot/src/piper_tts.py:120-122 | empty text stays empty; otherwise it ends in '.', '!' or '?'; a '.' is appended exactly when the text is non-empty and did not already end a sentence, and text that did is returned unchanged |
| PiperTts.CleanTextForTts | rpi5-chatbot/src/piper_tts.py:75-124 | the result has single spaces and nothing to strip, uses only allowed characters, is empty iff the prepared text is blank, keeps the prepared text's words, and otherwise ends in '.', '!' or '?' |
| PiperTts.CleanedIsStripped | rpi5-chatbot/src/piper_tts.py:24-26 | the cleaned text is already stripped, so the blank check in `synthesize` amounts to an emptiness check |
| PiperTts.PiperTts.constructor | rpi5-chatbot/src/piper_tts.py:16-18 | no temporary files are tracked and Piper has not been run |
| PiperTts.PiperTts.Synthesize | rpi5-chatbot/src/piper_tts.py:20-68 | blank cleaned text returns none without running Piper; otherwise Piper receives the cleaned text once; on success the output path (given, or the timestamped default) is returned and tracked as a temporary file; on failure none is returned and nothing is tracked |
| PiperTts.PiperTts.RunPiper | rpi5-chatbot/src/piper_tts.py:30-64 | Piper receives the input; a successful run returns and tracks the path, a failed one returns none and tracks nothing |
| PiperTts.PiperTts.CleanupTempFiles | rpi5-chatbot/src/piper_tts.py:181-195 | the tracked list is always empty afterwards; the count is the number of distinct tracked paths that existed (one deletion per existing path, each counted once), at most the number tracked |
| PiperTts.DeletionsCountsDistinct | rpi5-chatbot/src/piper_tts.py:181-195 | the deletions counted are exactly the distinct existing paths not removed before, however often a path is listed |
| AudioDeviceDetector.ScoreInput | rpi5-chatbot/src/audio_device_detector.py:281-315 | a PulseAudio device scores 50 whatever its name holds; else USB with audio/microphone/mic 800, other USB 700, bcm2835/builtin/internal 500, anything else 100 |
| AudioDeviceDetector.ScoreOutput | rpi5-chatbot/src/audio_device_detector.py:317-358 | each score holds exactly when its rule is the first that applies: PulseAudio 50; else HiFiBerry 850, USB 700, headphones/bcm2835 600, HDMI 500, anything else 100 |
| AudioDeviceDetector.PulseRanksLast | rpi5-chatbot/src/audio_device_detector.py:360-370 | a PulseAudio device scores below every other device, for input and output alike |
| AudioDeviceDetector.ParseInt | rpi5-chatbot/src/audio_device_detector.py:265-271 | a preference is an index iff, once stripped, it is an optional sign followed by decimal digits |
| AudioDeviceDetector.ParseIntString | rpi5-chatbot/src/audio_device_detector.py:265-266 | the decimal spelling of any integer parses back to that integer |
| AudioDeviceDetector.FindDeviceByPreference | rpi5-chatbot/src/audio_device_detector.py:247-279 | an integer preference that is some device's index gives the first such device; otherwise the first device whose lower-cased name contains the lower-cased preference; none iff no device matches either way |
| AudioDeviceDetector.HwSearchFinds | rpi5-chatbot/src/audio_device_detector.py:394-395 | the search for `hw:<digits>,<digits>` returns the first position where it occurs |
| AudioDeviceDetector.ExtractAlsaName | rpi5-chatbot/src/audio_device_detector.py:372-415 | none for PulseAudio devices and for names without `hw:<d>,<d>`; otherwise `plughw:CARD=c,DEV=d` for input and `hw:CARD=c,DEV=d` for output, taken from an occurrence with none before it |
| AudioDeviceDetector.ExtractAlsaNameOf | rpi5-chatbot/src/audio_device_detector.py:372-415 | a non-PulseAudio name such as "USB PnP Sound Device: Audio (hw:3,0)" gives the ALSA name built from exactly its card and device digits |
| AudioDeviceDetector.Capable | rpi5-chatbot/src/audio_device_detector.py:145 | only devices with channels in the wanted direction survive, and none survive iff no device has them |
| AudioDeviceDetector.BestIndex | rpi5-chatbot/src/audio_device_detector.py:172-179 | the chosen device has the highest score and every earlier device scores strictly less: the head of a stable descending sort |
| AudioDeviceDetector.FoundIsCandidate | rpi5-chatbot/src/audio_device_detector.py:152-169 | a device found by preference among capable devices is itself capable |
| AudioDeviceDetector.Preferred | rpi5-chatbot/src/audio_device_detector.py:152-169 | a preference gives a device iff it is given and matches, and the device is the one found, rated with the given score and its ALSA name |
| AudioDeviceDetector.DetectDevice | rpi5-chatbot/src/audio_device_detector.py:125-245 | none iff no device has channels in the wanted direction, and any result has them; a matched user preference wins with score 1000; else a matched configuration preference wins with 900 (an unmatched user preference falls through); else the first device with the highest score, rated with that score |
| RunChatbot.IndexOf | rpi5-chatbot/src/run_chatbot.py:44-46 | the position of the first occurrence of the separator, none iff it does not occur |
| RunChatbot.SizeTagFound | rpi5-chatbot/src/run_chatbot.py:50 | a version part starting with digits, optionally a fraction, and 'b' matches with exactly that tag as the first group |
| RunChatbot.PtbrName | rpi5-chatbot/src/run_chatbot.py:44-60 | every pt-br name ends in "-ptbr"; a name without ':' just gains the suffix; with ':' the result starts with the part before the first ':' |
| RunChatbot.PtbrDropsSizeTag | rpi5-chatbot/src/run_chatbot.py:44-54 | for a version starting with a size tag, the tag is dropped and the rest of the version is kept before "-ptbr" |
| RunChatbot.PtbrDropsOtherVersion | rpi5-chatbot/src/run_chatbot.py:50-57 | a version that does not start with a size tag (`\d+(\.\d+)?b`) is dropped whole |
| RunChatbot.QwenExample | rpi5-chatbot/src/run_chatbot.py:39 | "qwen2.5:1.5b" maps to "qwen2.5-ptbr" |
| RunChatbot.GemmaQatExample | rpi5-chatbot/src/run_chatbot.py:40 | "gemma3:1b-it-qat" maps to "gemma3-it-qat-ptbr" |
| RunChatbot.GemmaExample | rpi5-chatbot/src/run_chatbot.py:41 | "gemma3:1b" maps to "gemma3-ptbr" |
| RunChatbot.MistralExample | rpi5-chatbot/src/run_chatbot.py:42 | "mistral" maps to "mistral-ptbr" |
| RunChatbot.SelectModel | rpi5-chatbot/src/run_chatbot.py:33-65 | no model name keeps the configured model; native mode keeps the name unchanged; pt-br mode gives the pt-br name, which ends in "-ptbr" |
| RunChatbot.ModeMap | rpi5-chatbot/src/run_chatbot.py:134-139 | exactly "serial", "keyboard" and "disabled" have a listener mode |
| RunChatbot.ModeMapBijective | rpi5-chatbot/src/run_chatbot.py:134-139 | distinct mode strings map to distinct listener modes and every listener mode is reached |
| HardwareMonitor.DetectPlatform | rpi5-chatbot/src/hardware_monitor.py:27-54 | a lower-cased machine string with 'arm' or 'aarch64' gives Raspberry Pi 5/ARM64; else one with 'x86_64' or 'amd64' gives Desktop/x86_64; else Unknown with the lower-cased string as its architecture |
| HardwareMonitor.DetectPlatformIgnoresCase | rpi5-chatbot/src/hardware_monitor.py:34 | classification does not depend on the case of the machine string |
| HardwareMonitor.UnknownArchIsUnrecognised | rpi5-chatbot/src/hardware_monitor.py:43-45 | an unknown platform's architecture is lower case and classifies as the same unknown platform |
| HardwareMonitor.PiExample | rpi5-chatbot/src/hardware_monitor.py:37-39 | "aarch64" is a Raspberry Pi 5 |
| HardwareMonitor.WindowsExample | rpi5-chatbot/src/hardware_monitor.py:40-42 | "AMD64" is a desktop |
| HardwareMonitor.JoinSplit | rpi5-chatbot/src/hardware_monitor.py:202 | joining the pieces of `split('\n')` with the separator gives back the text |
| HardwareMonitor.SplitJoin | rpi5-chatbot/src/hardware_monitor.py:202 | splitting joined separator-free pieces gives back the pieces |
| HardwareMonitor.FirstField | rpi5-chatbot/src/hardware_monitor.py:206-210 | a non-blank line's first field is a non-empty, whitespace-free word |
| HardwareMonitor.ParseModelLines | rpi5-chatbot/src/hardware_monitor.py:203-212 | at most one name per line, each non-empty and whitespace-free |
| HardwareMonitor.ParseModelLinesSpec | rpi5-chatbot/src/hardware_monitor.py:203-212 | the names are the first fields of the non-blank lines, one each, in order |
| HardwareMonitor.RunningModels | rpi5-chatbot/src/hardware_monitor.py:183-215 | a non-zero exit code, a timeout or a missing binary gives an empty list; otherwise at most one name per line after the header, each a word |
| HardwareMonitor.ParseWords | rpi5-chatbot/src/hardware_monitor.py:203-212 | lines that are already single words parse to themselves |
| HardwareMonitor.ListingParsed | rpi5-chatbot/src/hardware_monitor.py:183-212 | a listing made of a header and one model name per line (with trailing whitespace) parses to exactly those names |
| HardwareMonitor.BaselineFeedsDelta | rpi5-chatbot/src/hardware_monitor.py:83-133 | a delta measured against a baseline is available iff both readings were, and is then the growth from the baseline reading to the later one, with the baseline's resident size reported |
| HardwareMonitor.MeasureMemoryDelta | rpi5-chatbot/src/hardware_monitor.py:107-133 | the delta is available iff both the current and the baseline readings are, and then it reports the current figures and the baseline's resident size, and baseline plus delta is the current figure; otherwise every figure is zero |
| HardwareMonitor.NoGrowthAgainstItself | rpi5-chatbot/src/hardware_monitor.py:107-133 | measuring against a baseline taken from the same reading gives zero growth, available iff the reading is |
| Text.StripEmptyIffBlank | rpi5-chatbot/src/voice_chatbot.py:272 | `s.strip()` is empty iff `s` is all whitespace |
| Text.StripIgnoresPadding | rpi5-chatbot/src/dismissal_detector.py:77 | `strip()` removes any whitespace padding on either side |
| Text.CleanWhitespaceSpec | rpi5-chatbot/src/whisper_stt.py:349 | `re.sub(r'\s+', ' ', text).strip()` has single spaces and nothing to strip, and keeps the words |
| Text.StripLower | rpi5-chatbot/src/dismissal_detector.py:77 | lower-casing and stripping commute |
| Text.DecimalRoundTrip | rpi5-chatbot/src/piper_tts.py:32-33 | the decimal spelling of a number reads back as that number |

## Left out

- Audio, process and network I/O are outcomes passed in as parameters. This covers PyAudio and pygame streams, the whisper-cli, piper, ollama and systemctl subprocesses, and the HTTP requests. Device enumeration is a list passed in, and `validate_device` is not modelled.
- Threads, locks and `queue.Queue` polling are not modelled. Events are sequential method calls, so the race between a timer firing and its cancellation is outside the model.
- `_process_responses` blocking on the queue and `start`'s wait loop are not modelled; one poll of the worker is `ProcessResponsesStep`.
- Floating-point RMS and wall-clock time are not modelled. Times are `real` values or a logical integer clock passed in, and the RMS of a chunk is a parameter of `VadStep`.
- The regular-expression engine is abstract.
  - The dismissal patterns are matched by a `search(pattern, text)` parameter. The example table at the end of `dismissal_detector.py` is therefore proved relative to that matcher's verdicts. Only `\btchau\b` is given a concrete meaning, a word search (`SearchWord`), which decides the "tchau" lines of that table (`TchauExamples`); the other lines, and every line expected to be false, are not proved.
  - Markdown and URL removal in `_clean_text_for_tts` is an abstract string function.
- Only ASCII and Latin-1 are modelled for Python's whitespace, word-character and case mapping. Unicode beyond that is not.
- `int()` is modelled for optional sign and decimal digits, without digit-group underscores or non-ASCII digits.
- Dropped persistence and streaming code:
  - conversation export, save and load, `get_context_text` and `ConversationSummarizer`;
  - `generate_streaming_response`, `set_history`, `warm_up_model`, `is_available` and `get_model_info`.
  - Warm-up is a per-attempt boolean parameter of the retry loop.
- Several collaborators are not part of this model: `sleep_manager.py`, `esp32_wake_listener.py`, `gpio_controller.py` and `config.py`.
  - The sleep backend's success is a parameter.
  - The sleep signal sent to the ESP32 is a counter.
  - Configuration validation and the outcome of `initialize` are a parameter of `Start`.
- Controller operations not modelled:
  - `get_conversation_stats`, `clear_conversation`, `export_conversation` and `say`, which are thin wrappers over modelled or dropped operations;
  - the `on_user_speech` and `on_ai_response` callbacks;
  - the wake from deep sleep and the cleanup and save in `stop`.
- Deleting the played temporary file in `on_finish` is not modelled.
- `synthesize_to_temp`'s temporary-file naming is not modelled: the output path is a parameter.
- `GetMatchedPatterns` is not called from `OnTranscription`. It only feeds a log line there.
- Exceptions are not modelled except for one: inside `_handle_user_input`, an exception after the reply was recorded (creating the temporary audio file, or the `on_ai_response` callback) is the `Raised` turn outcome. The language-model call never raises, since `generate_response` catches its own errors. Callback exceptions caught by `StateManager` and `TimeoutManager` only mean that the remaining callbacks still run, which is how the model dispatches them.
- The following `hardware_monitor.py` functions are not modelled: `find_ollama_process`, CPU measurement, `stop_model` and `create_snapshot`. Memory figures are integers.
- `run_chatbot.py`'s argument parsing, printing and `run_tests` are not modelled.
- As-written behaviour kept in the model, not corrected:
  - When the LLM returns nothing, or speech synthesis fails, the controller goes back to "listening" without resuming the recording that `_on_transcription_received` paused, and without arming a timer.
  - When synthesis returns a path whose file does not exist, `play` refuses it and the state stays "processing".
  - `_clean_response` cuts three characters even for the one-character "…".
