/** One mounted application: the meeting context, the control panel and the
    transcription component, wired as the page wires them. React re-runs
    the component's status effect after a render only when the recording
    status has changed; every other event goes straight to its handler. */
module MeetingSession {
  import opened Js
  import opened Media
  import opened Meeting
  import opened Languages
  import opened Transcription
  import opened Panel

  class Session {
    const ctx: MeetingContext
    const panel: ControlPanel
    const handler: TranscriptionHandler

    /** The components share one context; the handler's books balance;
        outside `recording` the handler holds nothing, so the microphone is
        released; and every stored or buffered entry carries its speaker's
        label. */
    ghost predicate Valid()
      reads this, ctx, panel, handler
    {
      && panel.ctx == ctx && handler.ctx == ctx
      && handler.Valid()
      && (ctx.recordingStatus != Recording ==> handler.AllNull())
      && WellLabelled(ctx.transcripts) && WellLabelled(panel.replayBuffer)
    }

    /** Mounting with the given build configuration and `onAudioReady` prop. */
    constructor (speechKey: Option<string>, speechRegion: Option<string>, hasAudioCallback: bool)
      ensures Valid()
      ensures ctx.recordingStatus == Idle && ctx.transcripts == [] && ctx.selectedLanguage == "English"
      ensures panel.replayBuffer == [] && !panel.isPlaying && panel.pendingSettles == 0
      ensures handler.AllNull() && handler.delivered == []
      ensures fresh(ctx) && fresh(panel) && fresh(handler)
    {
      var c := new MeetingContext();
      ctx := c;
      panel := new ControlPanel(c);
      handler := new TranscriptionHandler(c, speechKey, speechRegion, hasAudioCallback);
    }

    /** The status effect after a render: the cleanup and the branch for
        the new status, but only when the status differs from `before`. */
    method Rerender(before: Status, mic: Option<nat>)
      requires handler.Valid() && handler.ctx == ctx
      modifies handler
      ensures handler.Valid()
      ensures ctx.recordingStatus == before ==> unchanged(handler)
      ensures ctx.recordingStatus != before && ctx.recordingStatus != Recording ==> handler.AllNull()
      ensures ctx.recordingStatus != before && ctx.recordingStatus == Recording && mic.Some? ==>
        && handler.recorder == Some(MediaRecorder(old(handler.nextRun), Active))
        && handler.stream == Some(MediaStream(old(handler.nextRun), mic.value))
      ensures ctx.recordingStatus != before && ctx.recordingStatus == Recording && mic.None? ==> handler.AllNull()
    {
      if ctx.recordingStatus != before {
        handler.OnStatusChange(ctx.recordingStatus, mic);
      }
    }

    /** The Record button; `mic` is what `getUserMedia` resolves to if a
        recording starts. A new run holds a fresh stream and recorder. */
    method Start(mic: Option<nat>)
      requires Valid()
      modifies ctx, handler
      ensures Valid()
      ensures ctx.recordingStatus == Recording
      ensures ctx.transcripts == old(ctx.transcripts) && ctx.selectedLanguage == old(ctx.selectedLanguage)
      ensures old(ctx.recordingStatus) != Recording && mic.Some? ==>
        && handler.recorder == Some(MediaRecorder(old(handler.nextRun), Active))
        && handler.stream == Some(MediaStream(old(handler.nextRun), mic.value))
      ensures old(ctx.recordingStatus) == Recording ==> unchanged(handler)
    {
      var before := ctx.recordingStatus;
      panel.HandleStart();
      Rerender(before, mic);
    }

    /** The Pause button: while recording, the status becomes `paused` and,
        through the effect's cleanup, the recognizer, the recorder and every
        track of the microphone are stopped. */
    method Pause()
      requires Valid()
      modifies ctx, handler
      ensures Valid()
      ensures old(ctx.recordingStatus) == Recording ==>
        && ctx.recordingStatus == Paused && handler.AllNull()
        && (forall r :: r in handler.acquired ==> r in handler.released)
      ensures old(ctx.recordingStatus) != Recording ==>
        ctx.recordingStatus == old(ctx.recordingStatus) && unchanged(handler)
      ensures ctx.transcripts == old(ctx.transcripts) && ctx.selectedLanguage == old(ctx.selectedLanguage)
    {
      var before := ctx.recordingStatus;
      panel.HandlePause();
      Rerender(before, None);
      if before == Recording {
        handler.NothingLive();
      }
    }

    /** The Stop button: from `recording` or `paused`, the status becomes
        `stopped`, the transcript list is copied into the replay buffer,
        everything is released and a settle timer is pending. */
    method Stop()
      requires Valid()
      modifies ctx, panel`replayBuffer, panel`pendingSettles, handler
      ensures Valid()
      ensures ctx.transcripts == old(ctx.transcripts) && ctx.selectedLanguage == old(ctx.selectedLanguage)
      ensures old(ctx.recordingStatus) in {Recording, Paused} ==>
        && ctx.recordingStatus == Stopped && panel.replayBuffer == old(ctx.transcripts)
        && panel.pendingSettles == old(panel.pendingSettles) + 1
        && handler.AllNull() && (forall r :: r in handler.acquired ==> r in handler.released)
      ensures old(ctx.recordingStatus) !in {Recording, Paused} ==>
        && ctx.recordingStatus == old(ctx.recordingStatus) && panel.replayBuffer == old(panel.replayBuffer)
        && panel.pendingSettles == old(panel.pendingSettles) && unchanged(handler)
    {
      var before := ctx.recordingStatus;
      panel.HandleStop();
      Rerender(before, None);
      if before in {Recording, Paused} {
        handler.NothingLive();
      }
    }

    /** A settle timer fires: the status becomes `idle` whatever it is, so
        a recording started after the stop that scheduled the timer is torn
        down as well. */
    method SettleTimerFires()
      requires Valid() && panel.pendingSettles > 0
      modifies ctx, panel`pendingSettles, handler
      ensures Valid()
      ensures ctx.recordingStatus == Idle && handler.AllNull()
      ensures forall r :: r in handler.acquired ==> r in handler.released
      ensures panel.pendingSettles == old(panel.pendingSettles) - 1
      ensures ctx.transcripts == old(ctx.transcripts) && ctx.selectedLanguage == old(ctx.selectedLanguage)
    {
      var before := ctx.recordingStatus;
      panel.SettleTimerFires();
      Rerender(before, None);
      handler.NothingLive();
    }

    /** The Play button, run to completion: the list is cleared and the
        buffered entries go back through the recording gate, so outside
        `recording` the list is left empty, and while recording it shows
        the buffer again with new identities and times. */
    method Replay(stamps: seq<Stamp>)
      requires Valid() && |stamps| == |panel.replayBuffer|
      modifies ctx, panel`isPlaying
      ensures Valid()
      ensures ctx.recordingStatus == old(ctx.recordingStatus) && ctx.selectedLanguage == old(ctx.selectedLanguage)
      ensures panel.replayBuffer == old(panel.replayBuffer)
      ensures panel.replayBuffer == [] ==> panel.isPlaying == old(panel.isPlaying)
      ensures panel.replayBuffer != [] ==> !panel.isPlaying
      ensures panel.replayBuffer == [] ==> ctx.transcripts == old(ctx.transcripts)
      ensures panel.replayBuffer != [] && ctx.recordingStatus != Recording ==> ctx.transcripts == []
      ensures panel.replayBuffer != [] && ctx.recordingStatus == Recording ==>
        && |ctx.transcripts| == |panel.replayBuffer|
        && forall k :: 0 <= k < |ctx.transcripts| ==>
             ctx.transcripts[k] == Restamp(panel.replayBuffer[k], stamps[k])
    {
      panel.HandleReplay(stamps);
      if panel.replayBuffer != [] {
        ReaddGate([], ctx.recordingStatus, panel.replayBuffer, stamps);
        ReaddWellLabelled([], ctx.recordingStatus, panel.replayBuffer, stamps);
        if ctx.recordingStatus == Recording {
          ReplayRestores(panel.replayBuffer, stamps);
        }
      }
    }

    /** A final recognition result arrives (with the translation service's
        reply): stored only while recording and only when not blank. */
    method Transcribed(result: Option<RecognitionResult>, reply: Reply, stamp: Stamp)
      requires Valid()
      modifies ctx
      ensures Valid()
      ensures ctx.transcripts == AfterTranscribed(old(ctx.transcripts), old(ctx.recordingStatus),
                                                  old(ctx.selectedLanguage), result, reply, stamp)
      ensures ctx.recordingStatus == old(ctx.recordingStatus) && ctx.selectedLanguage == old(ctx.selectedLanguage)
      ensures ctx.recordingStatus != Recording ==> ctx.transcripts == old(ctx.transcripts)
    {
      TranscribedEffect(ctx.transcripts, ctx.recordingStatus, ctx.selectedLanguage, result, reply, stamp);
      var u := FinalUtterance(result);
      if u.Some? {
        AppendWellLabelled(ctx.transcripts, ctx.recordingStatus, u.value.text, u.value.speakerId,
                           Some(TranslateText(u.value.text, LanguageCode(ctx.selectedLanguage), reply)), stamp);
      }
      handler.OnTranscribed(result, reply, stamp);
    }

    /** The current recorder hands out a chunk. */
    method ChunkAvailable(chunk: Chunk)
      requires Valid() && handler.recorder.Some? && handler.recorder.value.state == Active
      modifies handler`chunks, handler`arrived
      ensures Valid()
      ensures handler.chunks == old(handler.chunks) + if |chunk| > 0 then [chunk] else []
    {
      handler.OnDataAvailable(chunk);
    }

    /** The current recorder stops on its own. */
    method RecorderHalted()
      requires Valid() && handler.recorder.Some? && handler.recorder.value.state == Active
      modifies handler`recorder, handler`released, handler`delivered
      ensures Valid()
      ensures handler.delivered == old(handler.delivered) +
        if handler.hasAudioCallback then [Audio(old(handler.recorder).value.run, Concat(handler.arrived))] else []
    {
      handler.OnRecorderHalted();
    }

    /** The language picker. */
    method SelectLanguage(name: string)
      requires Valid()
      modifies ctx
      ensures Valid()
      ensures ctx.selectedLanguage == name
      ensures ctx.transcripts == old(ctx.transcripts) && ctx.recordingStatus == old(ctx.recordingStatus)
    {
      ctx.SetSelectedLanguage(name);
    }

    /** The page goes away: the effect's cleanup runs once more and nothing
        stays acquired. */
    method Unmount()
      requires Valid()
      modifies handler
      ensures handler.Valid() && handler.AllNull()
      ensures forall r :: r in handler.acquired ==> r in handler.released
    {
      handler.Unmount();
    }
  }
}
