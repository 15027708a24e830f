/** The vendor objects one recording run holds (the microphone stream and
    its tracks, the media recorder, the speech recognizer), the audio chunks
    the recorder hands out, and the bookkeeping that tells which of these
    resources are still live. */
module Media {
  import opened Js

  type Byte = b: int | 0 <= b < 256

  /** The payload of one `dataavailable` event; its `size` is its length. */
  type Chunk = seq<Byte>

  /** The sum of the chunks' sizes. */
  function TotalSize(chunks: seq<Chunk>): (size: nat)
  {
    if chunks == [] then 0 else TotalSize(chunks[..|chunks| - 1]) + |chunks[|chunks| - 1]|
  }

  /** The bytes of `new Blob(chunks)`: the chunks one after the other, so
      the blob is as long as all its chunks together and ends with the
      last one. */
  function Concat(chunks: seq<Chunk>): (bytes: seq<Byte>)
    ensures |bytes| == TotalSize(chunks)
    ensures chunks != [] ==> bytes[|bytes| - |chunks[|chunks| - 1]|..] == chunks[|chunks| - 1]
  {
    if chunks == [] then [] else Concat(chunks[..|chunks| - 1]) + chunks[|chunks| - 1]
  }

  /** The chunks the `ondataavailable` handler keeps: those of size > 0, in
      the order they arrived. */
  function NonEmpty(chunks: seq<Chunk>): (kept: seq<Chunk>)
    ensures |kept| <= |chunks|
    ensures forall k :: 0 <= k < |kept| ==> |kept[k]| > 0
  {
    if chunks == [] then []
    else
      var last := chunks[|chunks| - 1];
      NonEmpty(chunks[..|chunks| - 1]) + (if |last| > 0 then [last] else [])
  }

  /** A chunk is kept exactly when it arrived and is not empty. */
  lemma {:induction false} NonEmptyKeeps(chunks: seq<Chunk>, c: Chunk)
    ensures c in NonEmpty(chunks) <==> c in chunks && |c| > 0
  {
    if chunks != [] {
      var init, last := chunks[..|chunks| - 1], chunks[|chunks| - 1];
      NonEmptyKeeps(init, c);
      assert chunks == init + [last];
    }
  }

  /** Dropping the empty chunks does not change the recorded audio. */
  lemma {:induction false} ConcatNonEmpty(chunks: seq<Chunk>)
    ensures Concat(NonEmpty(chunks)) == Concat(chunks)
  {
    if chunks != [] {
      var init, last := chunks[..|chunks| - 1], chunks[|chunks| - 1];
      ConcatNonEmpty(init);
      if |last| > 0 {
        var kept := NonEmpty(init) + [last];
        assert kept[..|kept| - 1] == NonEmpty(init);
      } else {
        assert NonEmpty(chunks) == NonEmpty(init);
        assert last == [];
      }
    }
  }

  /** The buffer holds the non-empty chunks the recorder handed out. */
  ghost predicate Buffered(chunks: seq<Chunk>, arrived: seq<Chunk>)
  {
    chunks == NonEmpty(arrived)
  }

  /** One more chunk arrives: the buffer grows by it when it is not empty. */
  lemma BufferedArrive(chunks: seq<Chunk>, arrived: seq<Chunk>, chunk: Chunk)
    requires Buffered(chunks, arrived)
    ensures Buffered(chunks + if |chunk| > 0 then [chunk] else [], arrived + [chunk])
  {
    assert (arrived + [chunk])[..|arrived|] == arrived;
  }

  /** A resource a recording run acquires from the platform: one audio track
      of the microphone stream, the media recorder, the speech recognizer.
      `run` is the identity of the run that acquired it. */
  datatype Resource = Track(run: nat, index: nat) | Recorder(run: nat) | Recognizer(run: nat)

  /** The stream `getUserMedia` resolves to, with `trackCount` tracks. */
  datatype MediaStream = MediaStream(run: nat, trackCount: nat)

  /** `MediaRecorder.state` as far as the handler looks at it. */
  datatype RecorderState = Active | Inactive

  datatype MediaRecorder = MediaRecorder(run: nat, state: RecorderState)

  /** The tracks of a stream, in the order `getTracks()` lists them. */
  function Tracks(run: nat, n: nat): (ts: seq<Resource>)
    ensures |ts| == n
    ensures forall i :: 0 <= i < n ==> ts[i] == Track(run, i)
  {
    if n == 0 then [] else Tracks(run, n - 1) + [Track(run, n - 1)]
  }

  predicate Distinct<T(==)>(s: seq<T>)
  {
    forall i, j :: 0 <= i < j < |s| ==> s[i] != s[j]
  }

  /** Whether the three refs hold `r` live: the recognizer, a recorder that
      is not `inactive`, or one of the tracks of the stream. */
  predicate Holds(recognizer: Option<nat>, recorder: Option<MediaRecorder>, stream: Option<MediaStream>, r: Resource)
  {
    match r
    case Recognizer(run) => recognizer == Some(run)
    case Recorder(run) => recorder == Some(MediaRecorder(run, Active))
    case Track(run, i) => stream.Some? && stream.value.run == run && i < stream.value.trackCount
  }

  /** `stopRecognizer`: `stopTranscribingAsync` on a recognizer, if any. */
  function RecognizerStop(recognizer: Option<nat>): (stops: seq<Resource>)
    ensures |stops| <= 1 && (stops != [] <==> recognizer.Some?)
    ensures forall r :: r in stops ==> r == Recognizer(recognizer.value)
  {
    if recognizer.Some? then [Recognizer(recognizer.value)] else []
  }

  /** `stop()` on a recorder that is not `inactive`. */
  function RecorderStop(recorder: Option<MediaRecorder>): (stops: seq<Resource>)
    ensures |stops| <= 1 && (stops != [] <==> recorder.Some? && recorder.value.state == Active)
    ensures forall r :: r in stops ==> r == Recorder(recorder.value.run)
  {
    if recorder.Some? && recorder.value.state == Active then [Recorder(recorder.value.run)] else []
  }

  /** `stop()` on each track of the stream, if any. */
  function StreamStop(stream: Option<MediaStream>): (stops: seq<Resource>)
    ensures |stops| == if stream.Some? then stream.value.trackCount else 0
    ensures forall r :: r in stops ==> r.Track? && r.run == stream.value.run && r.index < stream.value.trackCount
  {
    if stream.Some? then Tracks(stream.value.run, stream.value.trackCount) else []
  }

  /** The releases `stopAll` issues, in its order: one stop per held
      recognizer, one per recorder that is not `inactive`, one per track of
      the stream; the recognizer goes first, the tracks last. */
  function Teardown(recognizer: Option<nat>, recorder: Option<MediaRecorder>, stream: Option<MediaStream>): (stops: seq<Resource>)
    ensures |stops| == (if recognizer.Some? then 1 else 0)
                     + (if recorder.Some? && recorder.value.state == Active then 1 else 0)
                     + (if stream.Some? then stream.value.trackCount else 0)
    ensures recognizer.Some? ==> stops[0] == Recognizer(recognizer.value)
    ensures stream.Some? && stream.value.trackCount > 0 ==> stops[|stops| - 1] == Track(stream.value.run, stream.value.trackCount - 1)
  {
    RecognizerStop(recognizer) + RecorderStop(recorder) + StreamStop(stream)
  }

  /** The three steps of `stopAll`, logged one after the other, are its teardown. */
  lemma TeardownSteps(released: seq<Resource>, recognizer: Option<nat>, recorder: Option<MediaRecorder>, stream: Option<MediaStream>)
    ensures released + RecognizerStop(recognizer) + RecorderStop(recorder) + StreamStop(stream)
         == released + Teardown(recognizer, recorder, stream)
  {
    var a, b, c := RecognizerStop(recognizer), RecorderStop(recorder), StreamStop(stream);
    assert released + a + b + c == released + (a + b + c);
  }

  /** With all refs null `stopAll` releases nothing. */
  lemma TeardownNothing(released: seq<Resource>)
    ensures released + Teardown(None, None, None) == released
  {
  }

  /** The runs of the recorders in a release log, in release order. */
  function RecorderRuns(log: seq<Resource>): (runs: seq<nat>)
  {
    if log == [] then []
    else
      var last := log[|log| - 1];
      RecorderRuns(log[..|log| - 1]) + (if last.Recorder? then [last.run] else [])
  }

  lemma {:induction false} RecorderRunsAppend(a: seq<Resource>, b: seq<Resource>)
    ensures RecorderRuns(a + b) == RecorderRuns(a) + RecorderRuns(b)
  {
    if b != [] {
      RecorderRunsAppend(a, b[..|b| - 1]);
      assert (a + b)[..|a + b| - 1] == a + b[..|b| - 1];
    } else {
      assert a + b == a;
    }
  }

  lemma {:induction false} RecorderRunsMember(log: seq<Resource>, x: nat)
    ensures x in RecorderRuns(log) ==> Recorder(x) in log
  {
    if log != [] {
      RecorderRunsMember(log[..|log| - 1], x);
      if x !in RecorderRuns(log[..|log| - 1]) && x in RecorderRuns(log) {
        assert log[|log| - 1] == Recorder(x);
      }
    }
  }

  /** A release log without repeats stops every recorder at most once. */
  lemma {:induction false} DistinctRecorderRuns(log: seq<Resource>)
    requires Distinct(log)
    ensures Distinct(RecorderRuns(log))
  {
    if log != [] {
      var init, last := log[..|log| - 1], log[|log| - 1];
      assert Distinct(init);
      DistinctRecorderRuns(init);
      if last.Recorder? {
        RecorderRunsMember(init, last.run);
        var runs := RecorderRuns(init) + [last.run];
        forall i, j | 0 <= i < j < |runs| ensures runs[i] != runs[j] {
          if j == |runs| - 1 { assert runs[i] in RecorderRuns(init); }
        }
      }
    }
  }

  /** `stopAll` releases exactly what the refs hold, each resource once, and
      stops at most one recorder: the held one, if it is still active. */
  lemma TeardownReleasesHeld(recognizer: Option<nat>, recorder: Option<MediaRecorder>, stream: Option<MediaStream>)
    ensures forall r :: r in Teardown(recognizer, recorder, stream) <==> Holds(recognizer, recorder, stream, r)
    ensures Distinct(Teardown(recognizer, recorder, stream))
    ensures RecorderRuns(Teardown(recognizer, recorder, stream)) == RecorderRuns(RecorderStop(recorder))
  {
    var a, b, c := RecognizerStop(recognizer), RecorderStop(recorder), StreamStop(stream);
    var t := Teardown(recognizer, recorder, stream);
    forall r ensures r in t <==> Holds(recognizer, recorder, stream, r) {
      assert r in t <==> r in a || r in b || r in c;
      if r.Track? && stream.Some? && r.run == stream.value.run && r.index < stream.value.trackCount {
        assert c[r.index] == r;
      }
    }
    TeardownDistinct(a, b, c);
    TeardownRecorderRuns(a, b, c);
  }

  lemma TeardownDistinct(a: seq<Resource>, b: seq<Resource>, c: seq<Resource>)
    requires |a| <= 1 && |b| <= 1 && Distinct(c)
    requires forall r :: r in a ==> r.Recognizer?
    requires forall r :: r in b ==> r.Recorder?
    requires forall r :: r in c ==> r.Track?
    ensures Distinct(a + b + c)
  {
    var t := a + b + c;
    forall i, j | 0 <= i < j < |t| ensures t[i] != t[j] {
      if i >= |a| + |b| {
        assert t[i] == c[i - |a| - |b|] && t[j] == c[j - |a| - |b|];
      } else if i < |a| {
        assert t[i] in a;
        assert t[j] in b || t[j] in c;
      } else {
        assert t[i] in b;
        assert t[j] in c;
      }
    }
  }

  lemma TeardownRecorderRuns(a: seq<Resource>, b: seq<Resource>, c: seq<Resource>)
    requires |a| <= 1
    requires forall r :: r in a ==> r.Recognizer?
    requires forall r :: r in c ==> r.Track?
    ensures RecorderRuns(a + b + c) == RecorderRuns(b)
  {
    RecorderRunsAppend(a + b, c);
    RecorderRunsAppend(a, b);
    RecorderRunsOfTracksOnly(c);
    if a != [] { assert a[..0] == [] && a[0] in a; }
  }

  lemma {:induction false} RecorderRunsOfTracksOnly(c: seq<Resource>)
    requires forall r :: r in c ==> r.Track?
    ensures RecorderRuns(c) == []
  {
    if c != [] {
      assert c[|c| - 1] in c;
      RecorderRunsOfTracksOnly(c[..|c| - 1]);
    }
  }

  /** The bookkeeping of one handler: nothing is released twice, only
      acquired resources are released, every identity in use is below
      `nextRun`, the refs are from the latest run, and a resource is live
      (acquired, not released) exactly when the refs hold it: nothing leaks. */
  ghost predicate Accounted(acquired: seq<Resource>, released: seq<Resource>, nextRun: nat,
                            recognizer: Option<nat>, recorder: Option<MediaRecorder>, stream: Option<MediaStream>)
  {
    && Distinct(released)
    && (forall r :: r in released ==> r in acquired)
    && (forall r :: r in acquired ==> r.run < nextRun)
    && (forall r :: Holds(recognizer, recorder, stream, r) <==> r in acquired && r !in released)
    && (recognizer.Some? ==> recognizer.value + 1 == nextRun)
    && (recorder.Some? ==> recorder.value.run + 1 == nextRun)
    && (stream.Some? ==> stream.value.run + 1 == nextRun)
  }

  /** After `stopAll` has issued its releases and nulled the refs, the books
      still balance and everything ever acquired has been released. */
  lemma TeardownAccounted(acquired: seq<Resource>, released: seq<Resource>, nextRun: nat,
                          recognizer: Option<nat>, recorder: Option<MediaRecorder>, stream: Option<MediaStream>)
    requires Accounted(acquired, released, nextRun, recognizer, recorder, stream)
    ensures Accounted(acquired, released + Teardown(recognizer, recorder, stream), nextRun, None, None, None)
    ensures forall r :: r in acquired ==> r in released + Teardown(recognizer, recorder, stream)
    ensures RecorderRuns(released + Teardown(recognizer, recorder, stream))
         == RecorderRuns(released) + RecorderRuns(RecorderStop(recorder))
  {
    var batch := Teardown(recognizer, recorder, stream);
    TeardownReleasesHeld(recognizer, recorder, stream);
    RecorderRunsAppend(released, batch);
    DistinctAppend(released, batch);
    var all := released + batch;
    forall r | r in acquired ensures r in all {
      if r !in released { assert Holds(recognizer, recorder, stream, r); }
    }
    forall r | r in all ensures r in acquired {
      if r in batch { assert Holds(recognizer, recorder, stream, r); }
    }
    NothingHeldAccounted(acquired, all, nextRun);
  }

  /** With null refs the books balance once everything acquired is released. */
  lemma NothingHeldAccounted(acquired: seq<Resource>, released: seq<Resource>, nextRun: nat)
    requires Distinct(released)
    requires forall r :: r in released <==> r in acquired
    requires forall r :: r in acquired ==> r.run < nextRun
    ensures Accounted(acquired, released, nextRun, None, None, None)
  {
  }

  /** Two repeat-free logs with nothing in common join into one. */
  lemma DistinctAppend(a: seq<Resource>, b: seq<Resource>)
    requires Distinct(a) && Distinct(b)
    requires forall x :: x in b ==> x !in a
    ensures Distinct(a + b)
  {
    var all := a + b;
    forall i, j | 0 <= i < j < |all| ensures all[i] != all[j] {
      if j < |a| {
        assert all[i] == a[i] && all[j] == a[j];
      } else if i < |a| {
        assert all[j] == b[j - |a|] && all[i] == a[i];
        assert all[j] in b;
      } else {
        assert all[i] == b[i - |a|] && all[j] == b[j - |a|];
      }
    }
  }

  /** The resources one `startRecording` acquires, in its order: the
      stream's tracks, the recorder, and the recognizer when configured. */
  function RunResources(run: nat, trackCount: nat, withRecognizer: bool): (acquired: seq<Resource>)
    ensures |acquired| == trackCount + 1 + if withRecognizer then 1 else 0
    ensures forall r :: r in acquired ==> r.run == run
    ensures Recorder(run) in acquired && (Recognizer(run) in acquired <==> withRecognizer)
  {
    Tracks(run, trackCount) + [Recorder(run)] + if withRecognizer then [Recognizer(run)] else []
  }

  /** Starting a run from null refs with a fresh identity keeps the books
      balanced: the new resources are live and held, and nothing else is. */
  lemma AcquireRunAccounted(acquired: seq<Resource>, released: seq<Resource>, run: nat,
                            trackCount: nat, withRecognizer: bool)
    requires Accounted(acquired, released, run, None, None, None)
    ensures Accounted(acquired + RunResources(run, trackCount, withRecognizer), released, run + 1,
                      if withRecognizer then Some(run) else None,
                      Some(MediaRecorder(run, Active)), Some(MediaStream(run, trackCount)))
  {
    var rec: Option<nat> := if withRecognizer then Some(run) else None;
    var mr, st := Some(MediaRecorder(run, Active)), Some(MediaStream(run, trackCount));
    var batch := RunResources(run, trackCount, withRecognizer);
    var all := acquired + batch;
    forall r ensures Holds(rec, mr, st, r) <==> r in all && r !in released {
      if Holds(rec, mr, st, r) {
        if r.Track? {
          assert batch[r.index] == r;
        } else if r.Recorder? {
          assert batch[trackCount] == r;
        } else {
          assert batch[trackCount + 1] == r;
        }
      }
      if r in batch {
        assert r.run == run;
      }
    }
  }

  /** A recorder that stops on its own is released and no longer held. */
  lemma HaltAccounted(acquired: seq<Resource>, released: seq<Resource>, nextRun: nat,
                      recognizer: Option<nat>, run: nat, stream: Option<MediaStream>)
    requires Accounted(acquired, released, nextRun, recognizer, Some(MediaRecorder(run, Active)), stream)
    ensures Accounted(acquired, released + [Recorder(run)], nextRun, recognizer, Some(MediaRecorder(run, Inactive)), stream)
    ensures RecorderRuns(released + [Recorder(run)]) == RecorderRuns(released) + [run]
  {
    assert Holds(recognizer, Some(MediaRecorder(run, Active)), stream, Recorder(run));
    RecorderRunsAppend(released, [Recorder(run)]);
    assert [Recorder(run)][..0] == [];
  }

  /** One `onAudioReady(blobUrl)` call: `run` is the run whose recorder
      stopped, `bytes` the content of the blob behind the URL. */
  datatype Audio = Audio(run: nat, bytes: seq<Byte>)

  function AudioRuns(delivered: seq<Audio>): (runs: seq<nat>)
    ensures |runs| == |delivered|
  {
    if delivered == [] then [] else AudioRuns(delivered[..|delivered| - 1]) + [delivered[|delivered| - 1].run]
  }

  lemma {:induction false} AudioRunsAppend(delivered: seq<Audio>, more: seq<Audio>)
    ensures AudioRuns(delivered + more) == AudioRuns(delivered) + AudioRuns(more)
  {
    if more != [] {
      AudioRunsAppend(delivered, more[..|more| - 1]);
      assert (delivered + more)[..|delivered + more| - 1] == delivered + more[..|more| - 1];
    } else {
      assert delivered + more == delivered;
    }
  }

  /** The `onAudioReady` calls a recorder's stop produces: one audio of
      `bytes` when a callback is given and the recorder was still active. */
  function AudioOnStop(hasAudioCallback: bool, recorder: Option<MediaRecorder>, bytes: seq<Byte>): (audio: seq<Audio>)
    ensures |audio| <= 1
    ensures audio != [] <==> hasAudioCallback && recorder.Some? && recorder.value.state == Active
    ensures forall a :: a in audio ==> a == Audio(recorder.value.run, bytes)
  {
    if hasAudioCallback && recorder.Some? && recorder.value.state == Active
    then [Audio(recorder.value.run, bytes)] else []
  }

  /** With a callback, one audio was delivered per stopped recorder, in the
      order they stopped; without one, none. */
  ghost predicate DeliveredOnStop(hasAudioCallback: bool, delivered: seq<Audio>, released: seq<Resource>)
  {
    if hasAudioCallback then AudioRuns(delivered) == RecorderRuns(released) else delivered == []
  }

  /** `stopAll`'s recorder stop and the audio it delivers keep the two in step. */
  lemma TeardownDelivered(hasAudioCallback: bool, delivered: seq<Audio>, released: seq<Resource>, bytes: seq<Byte>,
                          recognizer: Option<nat>, recorder: Option<MediaRecorder>, stream: Option<MediaStream>)
    requires DeliveredOnStop(hasAudioCallback, delivered, released)
    requires RecorderRuns(released + Teardown(recognizer, recorder, stream))
          == RecorderRuns(released) + RecorderRuns(RecorderStop(recorder))
    ensures DeliveredOnStop(hasAudioCallback, delivered + AudioOnStop(hasAudioCallback, recorder, bytes),
                            released + Teardown(recognizer, recorder, stream))
    ensures recorder.None? ==> delivered + AudioOnStop(hasAudioCallback, recorder, bytes) == delivered
  {
    AudioRunsAppend(delivered, AudioOnStop(hasAudioCallback, recorder, bytes));
    if recorder.Some? && recorder.value.state == Active {
      assert RecorderStop(recorder)[..0] == [];
    }
  }

  /** A recorder that halts on its own delivers its audio in step as well. */
  lemma HaltDelivered(hasAudioCallback: bool, delivered: seq<Audio>, released: seq<Resource>, run: nat, bytes: seq<Byte>)
    requires DeliveredOnStop(hasAudioCallback, delivered, released)
    requires RecorderRuns(released + [Recorder(run)]) == RecorderRuns(released) + [run]
    ensures DeliveredOnStop(hasAudioCallback, delivered + AudioOnStop(hasAudioCallback, Some(MediaRecorder(run, Active)), bytes),
                            released + [Recorder(run)])
  {
    AudioRunsAppend(delivered, AudioOnStop(hasAudioCallback, Some(MediaRecorder(run, Active)), bytes));
  }
}
