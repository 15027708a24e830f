/** The earlier version of the transcription component. Its refs, its
    `stopRecognizer`, `stopAll`, chunk and `onstop` handlers and its
    `transcribed` filter are the current component's, so it drives one of
    those; it differs in that `startRecording` does not begin with a
    `stopAll` of its own. */
module TranscriptionLegacy {
  import opened Js
  import opened Media
  import opened Meeting
  import opened Languages
  import opened Transcription

  class TranscriptionHandler1 {
    /** The refs and the handlers the two versions share. */
    const core: TranscriptionHandler

    ghost predicate Valid()
      reads core
    {
      core.Valid()
    }

    constructor (ctx: MeetingContext, speechKey: Option<string>, speechRegion: Option<string>, hasAudioCallback: bool)
      ensures Valid() && core.AllNull() && fresh(core)
      ensures core.ctx == ctx && core.hasAudioCallback == hasAudioCallback
      ensures core.speechKey == speechKey && core.speechRegion == speechRegion
      ensures core.delivered == [] && core.acquired == [] && core.released == []
    {
      core := new TranscriptionHandler(ctx, speechKey, speechRegion, hasAudioCallback);
    }

    /** `startRecording`, run to completion: open the microphone (`mic` as
        for the current version), start a recorder, and create a recognizer
        when configured; nothing is torn down first. Its only caller, the
        effect, runs it right after the cleanup's `stopAll`, so the refs are
        null when it starts. */
    method StartRecording(mic: Option<nat>)
      requires Valid() && core.AllNull()
      modifies core`stream, core`recorder, core`recognizer, core`chunks, core`arrived, core`nextRun, core`acquired
      ensures Valid()
      ensures mic.None? ==> core.AllNull() && core.acquired == old(core.acquired) && core.nextRun == old(core.nextRun)
      ensures mic.None? ==> core.chunks == old(core.chunks) && core.arrived == old(core.arrived)
      ensures mic.Some? ==>
        && core.stream == Some(MediaStream(old(core.nextRun), mic.value))
        && core.recorder == Some(MediaRecorder(old(core.nextRun), Active))
        && core.recognizer == (if core.Configured() then Some(old(core.nextRun)) else None)
        && core.chunks == [] && core.arrived == [] && core.nextRun == old(core.nextRun) + 1
        && core.acquired == old(core.acquired) + RunResources(old(core.nextRun), mic.value, core.Configured())
    {
      if mic.Some? {
        core.OpenRun(mic.value);
      }
    }

    /** The effect on a status change: the cleanup's `stopAll`, then the
        branch for the new status. Its outcome is the current version's:
        the `stopAll` the current `startRecording` adds always finds the
        refs already null. */
    method OnStatusChange(status: Status, mic: Option<nat>)
      requires Valid()
      modifies core`released, core`delivered, core`recognizer, core`recorder, core`stream
      modifies core`chunks, core`arrived, core`nextRun, core`acquired
      ensures Valid()
      ensures core.released == old(core.released) + Teardown(old(core.recognizer), old(core.recorder), old(core.stream))
      ensures core.delivered == old(core.delivered)
        + AudioOnStop(core.hasAudioCallback, old(core.recorder), Concat(old(core.arrived)))
      ensures status != Recording || mic.None? ==> core.AllNull() && core.acquired == old(core.acquired)
      ensures status != Recording || mic.None? ==>
        core.chunks == old(core.chunks) && core.arrived == old(core.arrived) && core.nextRun == old(core.nextRun)
      ensures status == Recording && mic.Some? ==>
        && core.stream == Some(MediaStream(old(core.nextRun), mic.value))
        && core.recorder == Some(MediaRecorder(old(core.nextRun), Active))
        && core.recognizer == (if core.Configured() then Some(old(core.nextRun)) else None)
        && core.chunks == [] && core.arrived == [] && core.nextRun == old(core.nextRun) + 1
        && core.acquired == old(core.acquired) + RunResources(old(core.nextRun), mic.value, core.Configured())
    {
      core.StopAll();
      AfterCleanup(status, mic);
    }

    /** The effect's body for the new status, run right after the cleanup
        has nulled the refs. */
    method AfterCleanup(status: Status, mic: Option<nat>)
      requires Valid() && core.AllNull()
      modifies core`released, core`delivered, core`recognizer, core`recorder, core`stream
      modifies core`chunks, core`arrived, core`nextRun, core`acquired
      ensures Valid()
      ensures core.released == old(core.released) && core.delivered == old(core.delivered)
      ensures status != Recording || mic.None? ==> core.AllNull() && core.acquired == old(core.acquired)
      ensures status != Recording || mic.None? ==>
        core.chunks == old(core.chunks) && core.arrived == old(core.arrived) && core.nextRun == old(core.nextRun)
      ensures status == Recording && mic.Some? ==>
        && core.stream == Some(MediaStream(old(core.nextRun), mic.value))
        && core.recorder == Some(MediaRecorder(old(core.nextRun), Active))
        && core.recognizer == (if core.Configured() then Some(old(core.nextRun)) else None)
        && core.chunks == [] && core.arrived == [] && core.nextRun == old(core.nextRun) + 1
        && core.acquired == old(core.acquired) + RunResources(old(core.nextRun), mic.value, core.Configured())
    {
      if status == Recording {
        StartRecording(mic);
      } else {
        StopForStatus(status);
      }
    }

    /** The effect's branch for a status other than `recording`, run right
        after the cleanup: `stopRecognizer` for `paused`, `stopAll` for
        `stopped`, nothing for `idle`. With the refs already null, none of
        them releases or delivers anything. */
    method StopForStatus(status: Status)
      requires Valid() && core.AllNull() && status != Recording
      modifies core`released, core`delivered, core`recognizer, core`recorder, core`stream
      ensures Valid() && core.AllNull()
      ensures core.released == old(core.released) && core.delivered == old(core.delivered)
    {
      match status {
        case Paused => core.StopRecognizer();
        case Stopped => core.StopAll();
        case Idle =>
      }
    }

    /** The cleanup on unmount. */
    method Unmount()
      requires Valid()
      modifies core`released, core`delivered, core`recognizer, core`recorder, core`stream
      ensures Valid() && core.AllNull()
      ensures forall r :: r in core.acquired ==> r in core.released
    {
      core.StopAll();
    }

    /** The `transcribed` handler: the same filter, translation and gated
        add, written as `if (text)` rather than an early return. */
    method OnTranscribed(result: Option<RecognitionResult>, reply: Reply, stamp: Stamp)
      modifies core.ctx
      ensures core.ctx.transcripts == AfterTranscribed(old(core.ctx.transcripts), old(core.ctx.recordingStatus),
                                                       old(core.ctx.selectedLanguage), result, reply, stamp)
      ensures core.ctx.recordingStatus == old(core.ctx.recordingStatus)
      ensures core.ctx.selectedLanguage == old(core.ctx.selectedLanguage)
    {
      var u := FinalUtterance(result);
      if u.Some? {
        var translated := TranslateText(u.value.text, LanguageCode(core.ctx.selectedLanguage), reply);
        core.ctx.AddTranscript(u.value.text, u.value.speakerId, Some(translated), stamp);
      }
    }
  }
}
