/** The component that turns the recording status into resource actions:
    it acquires the microphone stream, the media recorder and the speech
    recognizer on entering `recording`, buffers the recorder's chunks,
    routes each final recognition result through translation into the
    transcript store, and tears everything down when the status changes. */
module Transcription {
  import opened Js
  import opened Media
  import opened Meeting
  import opened Languages

  /** `e.result` of a `transcribed` event; text and speaker may be missing. */
  datatype RecognitionResult = RecognitionResult(text: Option<string>, speakerId: Option<int>)

  datatype Utterance = Utterance(text: string, speakerId: int)

  /** The `transcribed` handler's filter: `e.result?.text?.trim()` must be
      non-empty, and the speaker defaults to 0 (`?? 0`). */
  function FinalUtterance(result: Option<RecognitionResult>): (u: Option<Utterance>)
    ensures u.None? <==> result.None? || result.value.text.None? || AllWhitespace(result.value.text.value)
    ensures u.Some? ==> u.value.text == Trim(result.value.text.value) && u.value.text != ""
    ensures u.Some? ==> u.value.speakerId == result.value.speakerId.OrElse(0)
  {
    if result.None? || result.value.text.None? then None
    else
      var text := Trim(result.value.text.value);
      if text == "" then None else Some(Utterance(text, result.value.speakerId.OrElse(0)))
  }

  /** The transcript list the `transcribed` handler leaves behind, for the
      status and language selection at the time it runs. */
  function AfterTranscribed(transcripts: seq<Entry>, status: Status, language: string,
                            result: Option<RecognitionResult>, reply: Reply, stamp: Stamp): (r: seq<Entry>)
    ensures |r| == |transcripts| + if status == Recording && FinalUtterance(result).Some? then 1 else 0
    ensures r[..|transcripts|] == transcripts
  {
    match FinalUtterance(result)
    case None => transcripts
    case Some(u) =>
      Append(transcripts, status, u.text, u.speakerId,
             Some(TranslateText(u.text, LanguageCode(language), reply)), stamp)
  }

  /** A result is stored only while recording and only when its text is not
      blank; the stored entry carries the trimmed text, and its translation
      falls back to that text when the service fails or the target is English. */
  lemma TranscribedEffect(transcripts: seq<Entry>, status: Status, language: string,
                          result: Option<RecognitionResult>, reply: Reply, stamp: Stamp)
    ensures var r := AfterTranscribed(transcripts, status, language, result, reply, stamp);
      && (status != Recording || FinalUtterance(result).None? ==> r == transcripts)
      && (status == Recording && FinalUtterance(result).Some? ==>
            && |r| == |transcripts| + 1 && r[..|transcripts|] == transcripts
            && r[|transcripts|].text == Trim(result.value.text.value)
            && r[|transcripts|].speakerId == result.value.speakerId.OrElse(0)
            && (reply.Failed? || LanguageCode(language) == DEFAULT_CODE ==>
                  r[|transcripts|].translatedText == r[|transcripts|].text))
  {
  }

  class TranscriptionHandler {
    const ctx: MeetingContext
    /** `VITE_AZURE_SPEECH_KEY` and `VITE_AZURE_REGION` from the build environment. */
    const speechKey: Option<string>
    const speechRegion: Option<string>
    /** Whether the `onAudioReady` prop is given. */
    const hasAudioCallback: bool

    var recognizer: Option<nat>          // recognizerRef.current: the run that created it
    var recorder: Option<MediaRecorder>  // mediaRecorderRef.current
    var stream: Option<MediaStream>      // audioStreamRef.current
    var chunks: seq<Chunk>               // audioChunksRef.current
    /** Every `onAudioReady` call so far. */
    var delivered: seq<Audio>
    /** The identity the next acquired stream, recorder and recognizer get. */
    var nextRun: nat

    /** Every chunk the current recorder has handed out, kept or not. */
    ghost var arrived: seq<Chunk>
    /** Every resource acquired and every resource released, in order. */
    ghost var acquired: seq<Resource>
    ghost var released: seq<Resource>

    predicate AllNull()
      reads this
    {
      recognizer.None? && recorder.None? && stream.None?
    }

    /** `!speechKey || !speechRegion` fails: both are set and not empty. */
    predicate Configured()
    {
      speechKey.Some? && speechKey.value != "" && speechRegion.Some? && speechRegion.value != ""
    }

    /** Nothing leaks (a resource is live exactly when a ref holds it),
        nothing is released twice, every held resource belongs to the latest
        run, the buffer holds the non-empty chunks of the current recorder,
        and each stopped recorder delivered one audio. */
    ghost predicate Valid()
      reads this
    {
      && Accounted(acquired, released, nextRun, recognizer, recorder, stream)
      && Buffered(chunks, arrived)
      && DeliveredOnStop(hasAudioCallback, delivered, released)
    }

    /** Mounting: the effect runs for the initial `idle` status and does nothing. */
    constructor (ctx: MeetingContext, speechKey: Option<string>, speechRegion: Option<string>, hasAudioCallback: bool)
      ensures Valid() && AllNull()
      ensures this.ctx == ctx && this.speechKey == speechKey && this.speechRegion == speechRegion
      ensures this.hasAudioCallback == hasAudioCallback
      ensures chunks == [] && delivered == [] && acquired == [] && released == []
    {
      this.ctx := ctx;
      this.speechKey := speechKey;
      this.speechRegion := speechRegion;
      this.hasAudioCallback := hasAudioCallback;
      recognizer, recorder, stream := None, None, None;
      chunks, delivered, nextRun := [], [], 0;
      arrived, acquired, released := [], [], [];
    }

    /** Everything the refs hold belongs to the latest run. */
    lemma SingleRun()
      requires Valid()
      ensures forall r :: Holds(recognizer, recorder, stream, r) ==> r.run + 1 == nextRun
    {
    }

    /** With every ref null, everything ever acquired has been released. */
    lemma NothingLive()
      requires Valid() && AllNull()
      ensures forall r :: r in acquired ==> r in released
    {
      forall r | r in acquired ensures r in released {
        assert !Holds(recognizer, recorder, stream, r);
      }
    }

    /** Each run's recording is delivered at most once. */
    lemma OneAudioPerRun()
      requires Valid()
      ensures Distinct(AudioRuns(delivered))
    {
      if hasAudioCallback { DistinctRecorderRuns(released); }
    }

    /** `stopRecognizer`: a stop request only when there is a recognizer;
        no ref changes. */
    method StopRecognizer()
      modifies this`released
      ensures released == old(released) + RecognizerStop(recognizer)
      ensures recognizer.None? ==> released == old(released)
    {
      if recognizer.Some? {
        released := released + [Recognizer(recognizer.value)];   // stopTranscribingAsync
      }
    }

    /** `getTracks().forEach(track => track.stop())`. */
    method StopTracks(s: MediaStream)
      modifies this`released
      ensures released == old(released) + Tracks(s.run, s.trackCount)
    {
      for i := 0 to s.trackCount
        invariant released == old(released) + Tracks(s.run, i)
      {
        released := released + [Track(s.run, i)];
      }
    }

    /** The recorder's `onstop` handler: one blob from the buffered chunks,
        handed to `onAudioReady` when it is given. */
    method OnRecorderStop(run: nat)
      modifies this`delivered
      ensures delivered == old(delivered) + if hasAudioCallback then [Audio(run, Concat(chunks))] else []
    {
      if hasAudioCallback {
        delivered := delivered + [Audio(run, Concat(chunks))];
      }
    }

    /** `stopAll`'s second step: stop the recorder unless it is `inactive`;
        its `onstop` runs there and then. */
    method StopRecorder()
      modifies this`released, this`delivered
      ensures released == old(released) + RecorderStop(recorder)
      ensures delivered == old(delivered) + AudioOnStop(hasAudioCallback, recorder, Concat(chunks))
    {
      if recorder.Some? && recorder.value.state != Inactive {
        released := released + [Recorder(recorder.value.run)];   // mediaRecorderRef.current.stop()
        OnRecorderStop(recorder.value.run);
      }
    }

    /** `stopAll`'s third step: stop the tracks of the stream, if any. */
    method StopStream()
      modifies this`released
      ensures released == old(released) + StreamStop(stream)
    {
      if stream.Some? {
        StopTracks(stream.value);
      }
    }

    /** `stopAll`: stop the recognizer, stop the recorder if it is not
        already inactive, stop the stream's tracks, null all three refs.
        Afterwards every resource ever acquired has been released. */
    method StopAll()
      requires Valid()
      modifies this`released, this`delivered, this`recognizer, this`recorder, this`stream
      ensures Valid() && AllNull()
      ensures released == old(released) + Teardown(old(recognizer), old(recorder), old(stream))
      ensures forall r :: r in acquired ==> r in released
      ensures delivered == old(delivered) + AudioOnStop(hasAudioCallback, old(recorder), Concat(arrived))
      ensures old(AllNull()) ==> released == old(released) && delivered == old(delivered)
    {
      ghost var rec0, mr0, st0, rel0 := recognizer, recorder, stream, released;
      TeardownAccounted(acquired, rel0, nextRun, rec0, mr0, st0);
      TeardownDelivered(hasAudioCallback, delivered, rel0, Concat(chunks), rec0, mr0, st0);
      TeardownSteps(rel0, rec0, mr0, st0);
      TeardownNothing(rel0);
      ConcatNonEmpty(arrived);
      StopRecognizer();
      StopRecorder();
      StopStream();
      recognizer, recorder, stream := None, None, None;
    }

    /** The part of `startRecording` after its `stopAll`: the stream of
        `tracks` tracks, a started recorder on a fresh chunk buffer, and a
        recognizer only when the speech key and region are configured. */
    method OpenRun(tracks: nat)
      requires Valid() && AllNull()
      modifies this`stream, this`recorder, this`recognizer, this`chunks, this`arrived, this`nextRun, this`acquired
      ensures Valid()
      ensures stream == Some(MediaStream(old(nextRun), tracks))
      ensures recorder == Some(MediaRecorder(old(nextRun), Active))
      ensures recognizer == (if Configured() then Some(old(nextRun)) else None)
      ensures chunks == [] && arrived == [] && nextRun == old(nextRun) + 1
      ensures acquired == old(acquired) + RunResources(old(nextRun), tracks, Configured())
    {
      var run, withRecognizer := nextRun, Configured();
      AcquireRunAccounted(acquired, released, run, tracks, withRecognizer);
      nextRun := nextRun + 1;
      stream := Some(MediaStream(run, tracks));       // getUserMedia resolved
      recorder := Some(MediaRecorder(run, Active));   // new MediaRecorder(stream); start()
      chunks, arrived := [], [];
      // new ConversationTranscriber; startTranscribingAsync, only when configured
      recognizer := if withRecognizer then Some(run) else None;
      acquired := acquired + RunResources(run, tracks, withRecognizer);
    }

    /** `startRecording`, run to completion: tear down whatever is held,
        then open the microphone (`mic` is the number of tracks of the
        stream `getUserMedia` resolves to, None when it rejects) and the
        rest of the run. */
    method StartRecording(mic: Option<nat>)
      requires Valid()
      modifies this`released, this`delivered, this`stream, this`recorder, this`recognizer
      modifies this`chunks, this`arrived, this`nextRun, this`acquired
      ensures Valid()
      ensures released == old(released) + Teardown(old(recognizer), old(recorder), old(stream))
      ensures delivered == old(delivered) + AudioOnStop(hasAudioCallback, old(recorder), Concat(old(arrived)))
      ensures mic.None? ==> AllNull() && acquired == old(acquired) && nextRun == old(nextRun)
      ensures mic.None? ==> chunks == old(chunks) && arrived == old(arrived)
      ensures mic.Some? ==>
        && stream == Some(MediaStream(old(nextRun), mic.value))
        && recorder == Some(MediaRecorder(old(nextRun), Active))
        && recognizer == (if Configured() then Some(old(nextRun)) else None)
        && chunks == [] && arrived == [] && nextRun == old(nextRun) + 1
        && acquired == old(acquired) + RunResources(old(nextRun), mic.value, Configured())
    {
      StopAll();
      if mic.Some? {
        OpenRun(mic.value);
      }
    }

    /** The effect on a status change: its cleanup (`stopAll`) first, then
        `startRecording` for `recording`, `stopRecognizer` for `paused` and
        `stopAll` for `stopped`. Only the cleanup finds anything to
        release, so pausing releases the microphone as well. */
    method OnStatusChange(status: Status, mic: Option<nat>)
      requires Valid()
      modifies this`released, this`delivered, this`stream, this`recorder, this`recognizer
      modifies this`chunks, this`arrived, this`nextRun, this`acquired
      ensures Valid()
      ensures released == old(released) + Teardown(old(recognizer), old(recorder), old(stream))
      ensures delivered == old(delivered) + AudioOnStop(hasAudioCallback, old(recorder), Concat(old(arrived)))
      ensures status != Recording || mic.None? ==> AllNull() && acquired == old(acquired)
      ensures status != Recording || mic.None? ==> chunks == old(chunks) && arrived == old(arrived) && nextRun == old(nextRun)
      ensures status == Recording && mic.Some? ==>
        && stream == Some(MediaStream(old(nextRun), mic.value))
        && recorder == Some(MediaRecorder(old(nextRun), Active))
        && recognizer == (if Configured() then Some(old(nextRun)) else None)
        && chunks == [] && arrived == [] && nextRun == old(nextRun) + 1
        && acquired == old(acquired) + RunResources(old(nextRun), mic.value, Configured())
    {
      StopAll();
      AfterCleanup(status, mic);
    }

    /** The effect's branch for the new status, run right after the cleanup
        has nulled the refs: `startRecording` for `recording`,
        `stopRecognizer` for `paused`, `stopAll` for `stopped`. None of them
        finds anything to release or deliver. */
    method AfterCleanup(status: Status, mic: Option<nat>)
      requires Valid() && AllNull()
      modifies this`released, this`delivered, this`stream, this`recorder, this`recognizer
      modifies this`chunks, this`arrived, this`nextRun, this`acquired
      ensures Valid()
      ensures released == old(released) && delivered == old(delivered)
      ensures status != Recording || mic.None? ==> AllNull() && acquired == old(acquired)
      ensures status != Recording || mic.None? ==> chunks == old(chunks) && arrived == old(arrived) && nextRun == old(nextRun)
      ensures status == Recording && mic.Some? ==>
        && stream == Some(MediaStream(old(nextRun), mic.value))
        && recorder == Some(MediaRecorder(old(nextRun), Active))
        && recognizer == (if Configured() then Some(old(nextRun)) else None)
        && chunks == [] && arrived == [] && nextRun == old(nextRun) + 1
        && acquired == old(acquired) + RunResources(old(nextRun), mic.value, Configured())
    {
      match status {
        case Recording =>
          TeardownNothing(released);
          StartRecording(mic);
        case Paused => StopRecognizer();
        case Stopped => StopAll();
        case Idle =>
      }
    }

    /** The cleanup on unmount. */
    method Unmount()
      requires Valid()
      modifies this`released, this`delivered, this`recognizer, this`recorder, this`stream
      ensures Valid() && AllNull()
      ensures forall r :: r in acquired ==> r in released
      ensures released == old(released) + Teardown(old(recognizer), old(recorder), old(stream))
    {
      StopAll();
    }

    /** `ondataavailable` on the current recorder: chunks of size 0 are dropped. */
    method OnDataAvailable(chunk: Chunk)
      requires Valid() && recorder.Some? && recorder.value.state == Active
      modifies this`chunks, this`arrived
      ensures Valid()
      ensures chunks == old(chunks) + if |chunk| > 0 then [chunk] else []
      ensures arrived == old(arrived) + [chunk]
    {
      BufferedArrive(chunks, arrived, chunk);
      arrived := arrived + [chunk];
      if |chunk| > 0 {
        chunks := chunks + [chunk];   // e.data.size > 0
      }
    }

    /** The current recorder stops on its own (an encoding error, or its
        track ends): its state becomes `inactive` and `onstop` runs. */
    method OnRecorderHalted()
      requires Valid() && recorder.Some? && recorder.value.state == Active
      modifies this`recorder, this`released, this`delivered
      ensures Valid()
      ensures recorder == Some(MediaRecorder(old(recorder).value.run, Inactive))
      ensures released == old(released) + [Recorder(old(recorder).value.run)]
      ensures delivered == old(delivered) +
        if hasAudioCallback then [Audio(old(recorder).value.run, Concat(arrived))] else []
    {
      var run := recorder.value.run;
      HaltAccounted(acquired, released, nextRun, recognizer, run, stream);
      HaltDelivered(hasAudioCallback, delivered, released, run, Concat(chunks));
      ConcatNonEmpty(arrived);
      released := released + [Recorder(run)];
      recorder := Some(MediaRecorder(run, Inactive));
      OnRecorderStop(run);
    }

    /** The `transcribed` handler: skip a blank result, translate into the
        language selected now, then add through the recording gate. The
        translation call is taken to complete before the next event. */
    method OnTranscribed(result: Option<RecognitionResult>, reply: Reply, stamp: Stamp)
      modifies ctx
      ensures ctx.transcripts == AfterTranscribed(old(ctx.transcripts), old(ctx.recordingStatus),
                                                  old(ctx.selectedLanguage), result, reply, stamp)
      ensures ctx.recordingStatus == old(ctx.recordingStatus)
      ensures ctx.selectedLanguage == old(ctx.selectedLanguage)
    {
      var u := FinalUtterance(result);
      if u.None? {
        return;
      }
      var code := LanguageCode(ctx.selectedLanguage);
      var translated := TranslateText(u.value.text, code, reply);
      ctx.AddTranscript(u.value.text, u.value.speakerId, Some(translated), stamp);
    }
  }
}
