# Meeting transcription session controller, modelled in Dafny

This project models the session controller of a browser meeting-transcription
client. The client records the microphone and sends the speech to a
recognizer that tells speakers apart. It translates each final utterance into
the selected language and shows the transcript as a list. After a stop, it
can replay the finished transcript.

Nine Dafny modules model the six source files of the controller. Six of
them follow one source file each. `Js` (the JavaScript built-ins) and `Media`
(the vendor objects and the release steps) model no single file, and
`MeetingSession` wires the components into one page:

| module | file | models |
|---|---|---|
| `Js` | js.dfy | The JavaScript built-ins the code relies on: nullish values and `??`, the truncating `%`, `String.prototype.trim`, and the decimal rendering of an integer in a template string. |
| `SpeakerColors` | speaker_colors.dfy | `COLORS` and `getSpeakerColor` (`src/utils/speakerColorMap.jsx`). |
| `Languages` | languages.dfy | `SUPPORTED_LANGUAGES`, `getLanguageCode` and `translateText` (`src/utils/languageUtils.jsx`). The translation service's reply is an input. |
| `Meeting` | meeting.dfy | The meeting context (`src/contexts/MeetingContext.jsx`): a class whose `transcripts`, `recordingStatus` and `selectedLanguage` fields are updated in place. `addTranscript` is gated on `recording`. |
| `Media` | media.dfy | The vendor objects of one recording run: stream tracks, recorder and recognizer, each tagged with the run that acquired it. It also holds the chunk buffer and the release functions `stopAll` is built from, plus the lemmas behind the "nothing leaks" invariant. |
| `Transcription` | transcription.dfy | `TranscriptionHandler` (`src/components/TranscriptionHandler.jsx`): a class whose three refs are `Option` fields. Ghost logs record what was acquired and what was released. Its methods are `stopRecognizer`, `stopAll`, `startRecording`, the status effect with its cleanup, and the recorder and recognizer callbacks. |
| `TranscriptionLegacy` | transcription_legacy.dfy | The earlier, unimported `TranscriptionHandler1.jsx`. Its `startRecording` does not begin with `stopAll`. |
| `Panel` | control_panel.dfy | `ControlPanel` (`src/components/ControlPanel.jsx`): the start, pause, stop, settle and replay handlers over `isPlaying` and `replayBuffer`. |
| `MeetingSession` | session.dfy | One mounted page. It connects the three components and re-runs the handler's effect whenever the status changes, as React does. |

Asynchronous steps are atomic steps of one sequential system:
- `await getUserMedia` inside `startRecording`;
- the translation `await` inside the `transcribed` handler;
- the whole replay loop with its one-second waits;
- a settle timer firing;
- a recorder chunk arriving;
- a recorder halting by itself.

A stop request (`stopTranscribingAsync`, `recorder.stop()`, `track.stop()`)
is logged as the release of that resource. In the model, the recorder's
`onstop` runs synchronously inside `recorder.stop()`.

`recorder.stop()` fires one last `dataavailable` event and then `stop`, both
asynchronously. Because `start()` is called without a timeslice, that last
chunk holds the whole recording. The model treats it as an ordinary
`OnDataAvailable` step that comes before the stop. Each real sequence of
events therefore has a matching sequence of model steps.

Four behaviours of the code a reader may not expect; the model proves each:
- **Pause releases everything.** The status effect's cleanup (`stopAll`) runs
  on every status change, including `recording → paused`. Pausing therefore
  stops the microphone and the recorder too, not only the recognizer
  (`MeetingSession.Session.Pause`).
- **Replay goes through the gate.** Replay re-adds entries through the gated
  `addTranscript`. Outside `recording` it leaves the transcript list empty
  (`Panel.ReaddGate`, `MeetingSession.Session.Replay`).
- **The settle timer is never cancelled.** It sets `idle` whatever the status
  is when it fires, even after a quick restart. That tears down the new
  recording (`MeetingSession.Session.SettleTimerFires`).
- **A microphone failure does not change the status.** When `getUserMedia`
  rejects, the status stays `recording` with nothing held
  (`Transcription.TranscriptionHandler.StartRecording` with `mic == None`).

## Model

| member | source | states |
|---|---|---|
| `Js.Rem` | src/utils/speakerColorMap.jsx:17 | JavaScript `%`: the remainder takes the dividend's sign. It lies in `[0, b)` for a non-negative dividend and in `(-b, 0]` for a negative one, and its magnitude is `|a| mod b`. |
| `Js.Trim` | src/components/TranscriptionHandler.jsx:99 | `trim()`: the input is whitespace, then the result, then whitespace. The result is empty exactly when the input is all whitespace. A non-empty result neither starts nor ends with whitespace. |
| `Js.Option.OrElse` | src/components/TranscriptionHandler.jsx:100 | `??`: the value when present, the default when the value is nullish. |
| `Js.IntToString` | src/contexts/MeetingContext.jsx:11 | The template rendering of an integer in canonical decimal: for `i >= 0`, digits denoting `i` with no leading zero (`"0"` for 0); for `i < 0`, `-` followed by digits that denote `-i` and do not start with `0`. |
| `Js.TrimIdempotent` | src/components/TranscriptionHandler.jsx:99 | Trimming an already trimmed text changes nothing. |
| `Js.IntToStringInjective` | src/contexts/MeetingContext.jsx:11 | Distinct integers render to distinct strings in a template string. |
| `SpeakerColors.SpeakerColor` | src/utils/speakerColorMap.jsx:3-17 | For a non-negative id the colour is `COLORS[id % 10]`, always one of the ten table entries. A negative id that is not a multiple of ten reads `undefined`. |
| `SpeakerColors.ColorPeriod` | src/utils/speakerColorMap.jsx:17 | `getSpeakerColor(id + 10) == getSpeakerColor(id)` exactly when `id` is not in `-9..-1`. |
| `SpeakerColors.FirstTenDistinct` | src/utils/speakerColorMap.jsx:3-17 | Speakers 0..9 get pairwise distinct colours. |
| `SpeakerColors.FirstSpeakerColor` | src/utils/speakerColorMap.jsx:4-17 | Speaker 0 gets `#DCF8C6`. |
| `Languages.FindByName` | src/utils/languageUtils.jsx:18 | `find`: the result is the index of the first entry with that name. It is absent exactly when no entry has that name. |
| `Languages.CatalogNamesDistinct` | src/utils/languageUtils.jsx:5-14 | No two catalog entries share a name. |
| `Languages.LanguageCode` | src/utils/languageUtils.jsx:17-20 | A catalog name maps to that entry's code. An unknown name maps to `"en"`. The result is always one of the 8 catalog codes. |
| `Languages.LanguageCodeOfEntry` | src/utils/languageUtils.jsx:5-19 | Looking up a catalog entry's name gives back its code. |
| `Languages.CallsBackend` | src/utils/languageUtils.jsx:24 | The negated short-circuit of `translateText`: a request is sent exactly when the text is non-empty and the target code is not `"en"`. |
| `Languages.TranslateText` | src/utils/languageUtils.jsx:23-46 | Empty text or the `"en"` target returns the text with no request. A failed request returns the text. A reply with a missing or empty translation returns the text; any other reply returns its translation. The result is always the input text or a non-empty translation from the service. |
| `Languages.DefaultSelectionTranslatesNothing` | src/utils/languageUtils.jsx:17-24 | With the initial selection `English`, every text comes back untranslated, whatever the service would reply. |
| `Meeting.SpeakerLabel` | src/contexts/MeetingContext.jsx:11 | The label is `"Speaker "` followed by the canonical rendering of `speakerId + 1`. When `speakerId + 1 >= 0` that is digits denoting it, with no leading zero. Otherwise it is `-` and the digits of `-(speakerId + 1)`, so id −5 gets `Speaker -4`. |
| `Meeting.SpeakerLabelInjective` | src/contexts/MeetingContext.jsx:11 | Different speaker ids never share a label. |
| `Meeting.NewEntry` | src/contexts/MeetingContext.jsx:19-26 | The record `addTranscript` builds: the given text and speaker id, the translation or `""` when none is given, the speaker's label, and the fresh id and time. |
| `Meeting.Append` | src/contexts/MeetingContext.jsx:14-28 | Outside `recording` the list is unchanged. In `recording`, exactly one entry is appended at the end and all earlier entries stay as they were. The new entry has the given text, speaker id and translation (default `""`), its speaker's label, and a fresh id and time. |
| `Meeting.MeetingContext.constructor` | src/contexts/MeetingContext.jsx:7-9 | Initial state: no transcripts, status `idle`, language `English`. |
| `Meeting.MeetingContext.AddTranscript` | src/contexts/MeetingContext.jsx:14-28 | The new list is `Append` of the old list under the current status. Status and language do not change. |
| `Meeting.MeetingContext.ClearTranscripts` | src/contexts/MeetingContext.jsx:30 | The list becomes empty whatever the status, and nothing else changes. |
| `Meeting.MeetingContext.SetRecordingStatus` | src/contexts/MeetingContext.jsx:8 | Only the status changes. |
| `Meeting.MeetingContext.SetSelectedLanguage` | src/contexts/MeetingContext.jsx:9 | Only the language changes. |
| `Media.NonEmpty` | src/components/TranscriptionHandler.jsx:49-54 | The `ondataavailable` filter: never keeps more chunks than arrived, and every kept chunk has size above 0. |
| `Media.Concat` | src/components/TranscriptionHandler.jsx:58 | `new Blob(chunks)`: as long as all the chunks together, and ending with the last chunk. |
| `Media.Tracks` | src/components/TranscriptionHandler.jsx:152 | `getTracks()`: `n` tracks, with track `i` at position `i`. |
| `Media.Teardown` | src/components/TranscriptionHandler.jsx:141-153 | The stops `stopAll` issues are one per held recognizer, one per recorder that is not `inactive`, and one per stream track. The recognizer is stopped first and the last track last. |
| `Media.NonEmptyKeeps` | src/components/TranscriptionHandler.jsx:49-54 | A chunk is kept exactly when it arrived and its size is above 0. |
| `Media.ConcatNonEmpty` | src/components/TranscriptionHandler.jsx:49-58 | Dropping the empty chunks does not change the bytes of the blob. |
| `Media.BufferedArrive` | src/components/TranscriptionHandler.jsx:49-54 | One more chunk keeps the buffer equal to the non-empty chunks, in arrival order. |
| `Media.TeardownSteps` | src/components/TranscriptionHandler.jsx:138-153 | Proof step for `StopAll`: the logs of the three release steps (`RecognizerStop`, `RecorderStop`, `StreamStop`), joined in that order, are `Teardown`. |
| `Media.RecognizerStop` | src/components/TranscriptionHandler.jsx:128-136 | `stopRecognizer`'s release log: one stop of the held recognizer, and none when the ref is null. |
| `Media.RecorderStop` | src/components/TranscriptionHandler.jsx:143-149 | The recorder step of `stopAll`: one stop of the held recorder when it is not `inactive`, none otherwise. |
| `Media.StreamStop` | src/components/TranscriptionHandler.jsx:151-153 | The stream step of `stopAll`: one stop per track of the held stream, each a track of that stream's run, and none without a stream. |
| `Media.AudioOnStop` | src/components/TranscriptionHandler.jsx:56-64 | The audio `onstop` delivers when `stopAll` stops the recorder: at most one, exactly when `onAudioReady` is given and the recorder is active, and it is the blob of the buffered chunks for that recorder's run. |
| `Media.RunResources` | src/components/TranscriptionHandler.jsx:42-89 | What `startRecording` acquires for one run: every track of the stream, the recorder, and the recognizer exactly when configured. All belong to that run. |
| `Media.TeardownNothing` | src/components/TranscriptionHandler.jsx:138-158 | With all refs null, `stopAll` releases nothing. |
| `Media.TeardownReleasesHeld` | src/components/TranscriptionHandler.jsx:138-158 | `stopAll` releases exactly the resources the refs hold: the recognizer, an active recorder, every track of the stream. Each is released once, and at most the held recorder is stopped. |
| `Media.TeardownAccounted` | src/components/TranscriptionHandler.jsx:138-158 | After `stopAll` the books still balance, and every resource ever acquired has been released. |
| `Media.AcquireRunAccounted` | src/components/TranscriptionHandler.jsx:39-89 | Opening a run from null refs with a fresh identity keeps the books balanced. The new resources are live and held, and nothing else is. |
| `Media.HaltAccounted` | src/components/TranscriptionHandler.jsx:143-146 | A recorder that stops by itself counts as released and is no longer held, so `stopAll` will not stop it again. |
| `Media.TeardownDelivered` | src/components/TranscriptionHandler.jsx:56-64 | Stopping an active recorder delivers one audio for its run when `onAudioReady` is given. Stopping nothing delivers nothing. |
| `Media.HaltDelivered` | src/components/TranscriptionHandler.jsx:56-64 | A recorder that halts by itself also delivers its one audio. |
| `Transcription.FinalUtterance` | src/components/TranscriptionHandler.jsx:99-105 | The result is dropped exactly when its text is missing or all whitespace. Otherwise the utterance has the trimmed, non-empty text and the speaker id, which defaults to 0. |
| `Transcription.AfterTranscribed` | src/components/TranscriptionHandler.jsx:97-112 | The list after a `transcribed` event grows by exactly one entry when recording and the result is not blank; otherwise it is unchanged. Earlier entries are always kept. |
| `Transcription.TranscribedEffect` | src/components/TranscriptionHandler.jsx:97-112 | A blank result, or any result outside `recording`, leaves the list unchanged. Otherwise one entry is appended with the trimmed text and the speaker id. Its translation equals the text when the service fails or the target is `"en"`. |
| `Transcription.TranscriptionHandler.Configured` | src/components/TranscriptionHandler.jsx:70-76 | The guard that lets `startRecording` go on to create a recognizer: both the speech key and the region are present and non-empty, as JavaScript truthiness requires of a string. |
| `Transcription.TranscriptionHandler.constructor` | src/components/TranscriptionHandler.jsx:13-16 | All refs start null, with an empty buffer and empty logs. |
| `Transcription.TranscriptionHandler.SingleRun` | src/components/TranscriptionHandler.jsx:39-89 | Everything the refs hold belongs to the latest run, so at most one run's resources are held. |
| `Transcription.TranscriptionHandler.NothingLive` | src/components/TranscriptionHandler.jsx:138-158 | With every ref null, everything ever acquired has been released. |
| `Transcription.TranscriptionHandler.OneAudioPerRun` | src/components/TranscriptionHandler.jsx:56-64 | No run's audio is delivered twice. |
| `Transcription.TranscriptionHandler.StopRecognizer` | src/components/TranscriptionHandler.jsx:128-136 | A stop is issued only when a recognizer is held, and no ref changes. |
| `Transcription.TranscriptionHandler.StopTracks` | src/components/TranscriptionHandler.jsx:152 | Every track of the stream is stopped, in `getTracks()` order. |
| `Transcription.TranscriptionHandler.OnRecorderStop` | src/components/TranscriptionHandler.jsx:56-64 | `onstop` delivers one audio built from the buffered chunks, and only when `onAudioReady` is given. |
| `Transcription.TranscriptionHandler.StopRecorder` | src/components/TranscriptionHandler.jsx:143-149 | The recorder is stopped, and its audio delivered, only when one exists and it is not `inactive`. |
| `Transcription.TranscriptionHandler.StopStream` | src/components/TranscriptionHandler.jsx:151-153 | Tracks are stopped only when a stream exists. |
| `Transcription.TranscriptionHandler.StopAll` | src/components/TranscriptionHandler.jsx:138-158 | Ends with all three refs null and everything acquired released. It releases exactly the held resources. On all-null refs it releases and delivers nothing, so a second call is a no-op. |
| `Transcription.TranscriptionHandler.OpenRun` | src/components/TranscriptionHandler.jsx:42-89 | A fresh stream, a started recorder, an empty chunk buffer (and no arrivals), the run counter advanced by one, and exactly the run's resources acquired. A recognizer is created only when the speech key and region are set; otherwise the recorder runs with a null recognizer ref. |
| `Transcription.TranscriptionHandler.StartRecording` | src/components/TranscriptionHandler.jsx:35-126 | First releases whatever was held, then opens a new run. If the microphone is refused, everything is left null, nothing is acquired, and the buffer and run counter are unchanged. |
| `Transcription.TranscriptionHandler.OnStatusChange` | src/components/TranscriptionHandler.jsx:18-33 | The cleanup's `stopAll` releases exactly what was held. Only `recording` acquires anything. Every other status, `paused` included, and a refused microphone end with all refs null and leave the chunk buffer and the run counter as they were. `recording` with a microphone opens exactly one new run: fresh refs, an empty buffer, the counter advanced by one and the run's resources acquired. |
| `Transcription.TranscriptionHandler.AfterCleanup` | src/components/TranscriptionHandler.jsx:21-27 | The effect's branch, run on the refs the cleanup nulled, releases and delivers nothing. Only `recording` with a microphone acquires a run; every other case leaves the refs null and the buffer as it was. |
| `Transcription.TranscriptionHandler.Unmount` | src/components/TranscriptionHandler.jsx:29-32 | On unmount, everything acquired is released. |
| `Transcription.TranscriptionHandler.OnDataAvailable` | src/components/TranscriptionHandler.jsx:49-54 | Only a chunk of size above 0 is appended to the buffer. |
| `Transcription.TranscriptionHandler.OnRecorderHalted` | src/components/TranscriptionHandler.jsx:56-64 | A recorder that stops by itself becomes `inactive`, counts as released and delivers its one audio. |
| `Transcription.TranscriptionHandler.OnTranscribed` | src/components/TranscriptionHandler.jsx:97-112 | Translates into the language selected now, then adds the entry through the recording gate (`AfterTranscribed`). |
| `TranscriptionLegacy.TranscriptionHandler1.constructor` | src/components/TranscriptionHandler1.jsx:13-16 | All refs start null, with empty logs. |
| `TranscriptionLegacy.TranscriptionHandler1.StartRecording` | src/components/TranscriptionHandler1.jsx:37-110 | Does no teardown and needs null refs. Opens a fresh stream and a started recorder on an empty buffer, plus a recognizer only when configured. |
| `TranscriptionLegacy.TranscriptionHandler1.OnStatusChange` | src/components/TranscriptionHandler1.jsx:18-35 | The cleanup's `stopAll` nulls the refs before `startRecording` sets them, so the outcome matches the current version's: the same releases and deliveries, and for any status but `recording` null refs with the buffer and run counter unchanged. |
| `TranscriptionLegacy.TranscriptionHandler1.AfterCleanup` | src/components/TranscriptionHandler1.jsx:21-29 | The effect's branch after the cleanup has nulled the refs releases and delivers nothing. Only `recording` with a microphone acquires a run; every other case leaves the refs null. |
| `TranscriptionLegacy.TranscriptionHandler1.StopForStatus` | src/components/TranscriptionHandler1.jsx:23-29 | `stopRecognizer` for `paused` and `stopAll` for `stopped`, run on null refs, release and deliver nothing and leave the refs null. |
| `TranscriptionLegacy.TranscriptionHandler1.Unmount` | src/components/TranscriptionHandler1.jsx:31-34 | On unmount, everything acquired is released. |
| `TranscriptionLegacy.TranscriptionHandler1.OnTranscribed` | src/components/TranscriptionHandler1.jsx:86-96 | A blank result is skipped and the speaker id defaults to 0. Otherwise the translated utterance goes through the gate. |
| `Panel.AppendWellLabelled` | src/contexts/MeetingContext.jsx:17-27 | `addTranscript` keeps every entry's label in step with its speaker id. |
| `Panel.Readd` | src/components/ControlPanel.jsx:130-137 | The replay loop's re-adds: the list grows by one entry per buffered entry in `recording`, and by none otherwise. |
| `Panel.Restamp` | src/components/ControlPanel.jsx:131-135 | An entry as the replay brings it back: the stamp's id and time, and every other field as in the buffered entry (putting the old id and time back gives the entry itself). |
| `Panel.ReaddGate` | src/components/ControlPanel.jsx:128-137 | Outside `recording`, re-adding the buffer leaves the list unchanged. In `recording`, the buffered entries come back after it in buffer order. Each has the same text, speaker and translation, the new id and time, and the label `addTranscript` gives its speaker, so a well-labelled entry comes back as exactly that entry restamped. |
| `Panel.ReaddDropped` | src/components/ControlPanel.jsx:130-137 | Outside `recording`, every re-add is dropped by the gate. |
| `Panel.ReaddRestores` | src/components/ControlPanel.jsx:130-137 | In `recording`, the list keeps what it started with and the `k`-th added entry is restored from the `k`-th buffered one. |
| `Panel.ReaddKeeps` | src/components/ControlPanel.jsx:130-137 | In `recording`, re-adding keeps the list it starts from as a prefix. |
| `Panel.ReaddAt` | src/components/ControlPanel.jsx:130-137 | In `recording`, the `k`-th re-added entry is the `k`-th buffered one restamped with the `k`-th stamp and relabelled for its speaker. |
| `Panel.ReaddSnoc` | src/components/ControlPanel.jsx:130-135 | One more loop iteration is one more gated `addTranscript` of the next buffered entry. |
| `Panel.ReplayRestores` | src/components/ControlPanel.jsx:128-137 | A replay in `recording` rebuilds the buffered list entry for entry, with only the identities and times renewed. |
| `Panel.ReaddWellLabelled` | src/components/ControlPanel.jsx:128-137 | The list a replay leaves behind keeps every label in step. |
| `Panel.ControlPanel.constructor` | src/components/ControlPanel.jsx:98-99 | Not playing, with an empty replay buffer. |
| `Panel.ControlPanel.HandleStart` | src/components/ControlPanel.jsx:101-105 | Every status ends as `recording`; from `recording` nothing changes. |
| `Panel.ControlPanel.HandlePause` | src/components/ControlPanel.jsx:107-111 | Only `recording` becomes `paused`; every other status is left as it was. |
| `Panel.ControlPanel.HandleStop` | src/components/ControlPanel.jsx:113-123 | From `recording` or `paused`: the status becomes `stopped`, the buffer becomes the current list, and one settle timer is pending. From `idle` or `stopped`: neither the status nor the buffer changes. |
| `Panel.ControlPanel.SettleTimerFires` | src/components/ControlPanel.jsx:119-121 | Sets `idle` whatever the status is when it fires. |
| `Panel.ControlPanel.HandleReplay` | src/components/ControlPanel.jsx:125-140 | An empty buffer changes nothing. Otherwise the list is cleared, each buffered entry is re-added in order through the gate, and `isPlaying` is true throughout and false after. The buffer is never written. |
| `MeetingSession.Session.constructor` | src/App.jsx:7-33 | The mounted page: a new context, panel and handler, the shared context, initial state, and nothing held. |
| `MeetingSession.Session.Rerender` | src/components/TranscriptionHandler.jsx:18-33 | The effect runs only when the status changed. It then leaves the refs null for any status but `recording`. |
| `MeetingSession.Session.Start` | src/components/ControlPanel.jsx:101-105 | The status becomes `recording`. Starting from another status opens a fresh run; starting while already recording leaves the handler untouched. The list and the language never change. |
| `MeetingSession.Session.Pause` | src/components/TranscriptionHandler.jsx:29-32 | `recording → paused` releases the recognizer, the recorder and every microphone track. From every other status, the status and the handler are unchanged. The list and the language never change. |
| `MeetingSession.Session.Stop` | src/components/ControlPanel.jsx:113-123 | From `recording` or `paused`: `stopped`, a buffer equal to the list, everything released, one settle timer pending. From other statuses nothing changes: not the status, the buffer, the pending timers or the handler. The list and the language never change. |
| `MeetingSession.Session.SettleTimerFires` | src/components/ControlPanel.jsx:119-121 | Always ends `idle` with everything released, even when a new recording was started after the stop. The list and the language do not change. |
| `MeetingSession.Session.Replay` | src/components/ControlPanel.jsx:125-140 | An empty buffer changes nothing. With a non-empty buffer outside `recording`, the list ends empty. In `recording` it ends as the buffer with new identities and times. The status, the language and the buffer do not change, and `isPlaying` ends false. |
| `MeetingSession.Session.Transcribed` | src/components/TranscriptionHandler.jsx:97-112 | A final result is stored only while recording and only when not blank (`AfterTranscribed`). The status and the language do not change. |
| `MeetingSession.Session.ChunkAvailable` | src/components/TranscriptionHandler.jsx:49-54 | Only a non-empty chunk is buffered. |
| `MeetingSession.Session.RecorderHalted` | src/components/TranscriptionHandler.jsx:56-64 | A recorder that halts by itself delivers the audio of its run. |
| `MeetingSession.Session.SelectLanguage` | src/contexts/MeetingContext.jsx:9 | Only the language changes. |
| `MeetingSession.Session.Unmount` | src/components/TranscriptionHandler.jsx:29-32 | The page going away leaves nothing acquired. |

## Left out

- The vendor SDKs and browser objects are abstract values and events:
  - the speech SDK;
  - `getUserMedia`, `MediaRecorder`, `Blob` and `URL.createObjectURL`;
  - the translation HTTP call.
- The pieces of those abstractions:
  - a stream is its run and its track count;
  - a blob is its bytes;
  - the blob URL is the audio it names;
  - the service reply is a `Reply` input.
- Interleavings inside an asynchronous step are not modelled, because every callback and timer is an atomic step. The no-leak results hold only under that assumption. This leaves out four races:
  - a cleanup running during `await getUserMedia`: the run then sets its refs after the cleanup, and its stream and recorder leak;
  - `onstop` reading a buffer that the next run already reset;
  - translations completing out of order before `addTranscript`;
  - a second replay started while one is in progress.
- Real durations are not modelled: the 500 ms settle timer and the 1 s replay delay are discrete steps.
- Fresh ids and times (`Date.now`, `Math.random`, `toLocaleTimeString`) are opaque `Stamp` values supplied by the caller.
- React's stale-closure behaviour is not modelled: the gate reads the status, and translation the selected language, at call time. In the source the `transcribed` handler is created by `startRecording`, so both are those of the render where recording started; a language change during a recording takes effect only at the next start (`Transcription.TranscriptionHandler.OnTranscribed`, `MeetingSession.Session.SelectLanguage` followed by `MeetingSession.Session.Transcribed`).
- Recognizer settings are not modelled (the `en-US` locale, diarization enabled), and neither are the `recognizing`, `canceled`, `sessionStopped` and start-failure callbacks. They only log.
- Logging is not modelled.
- Speaker ids are unbounded integers, not JavaScript numbers; the model is exact only for safe integers (|id| < 2^53). Beyond that, `id + 1` rounds, and from 1e21 the template string switches to exponent form.
- The speech service may report a non-numeric speaker id, for which `id + 1` concatenates strings; that case is not modelled.
- SpeakerLabelInjective: holds for integers. In the source it fails from 2^53 on: ids 2^53 − 1 and 2^53 both get the label `Speaker 9007199254740992`.
- The JSX and button `disabled` flags are not modelled, and neither are `ChatBubble.jsx`, `ChatWindow.jsx`, `LanguageSelector.jsx` and `main.jsx`.
- The commented-out code in `ControlPanel.jsx` and `TranscriptionHandler1.jsx` is not part of this model.
