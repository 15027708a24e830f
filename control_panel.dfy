/** The recording controls: start, pause and stop buttons that move the
    shared recording status, the replay buffer a stop fills, and the replay
    that clears the transcript list and adds the buffered entries back one
    by one. */
module Panel {
  import opened Js
  import opened Meeting

  /** Every entry carries the label of its own speaker, as `addTranscript`
      gives it. */
  ghost predicate WellLabelled(entries: seq<Entry>)
  {
    forall k :: 0 <= k < |entries| ==> entries[k].speakerLabel == SpeakerLabel(entries[k].speakerId)
  }

  /** `addTranscript` keeps every label in step with its speaker. */
  lemma AppendWellLabelled(transcripts: seq<Entry>, status: Status, text: string, speakerId: int,
                           translatedText: Option<string>, stamp: Stamp)
    requires WellLabelled(transcripts)
    ensures WellLabelled(Append(transcripts, status, text, speakerId, translatedText, stamp))
  {
    var r := Append(transcripts, status, text, speakerId, translatedText, stamp);
    if status == Recording {
      forall k | 0 <= k < |r| ensures r[k].speakerLabel == SpeakerLabel(r[k].speakerId) {
        if k < |transcripts| {
          assert r[k] == r[..|transcripts|][k];
        }
      }
    }
  }

  /** The list the replay loop leaves behind, starting from `transcripts`,
      when each of `entries` is added back with the matching stamp
      through the recording gate. */
  function Readd(transcripts: seq<Entry>, status: Status, entries: seq<Entry>, stamps: seq<Stamp>): (r: seq<Entry>)
    requires |stamps| == |entries|
    ensures |r| == |transcripts| + if status == Recording then |entries| else 0
  {
    if entries == [] then transcripts
    else
      var n := |entries| - 1;
      var e := entries[n];
      Append(Readd(transcripts, status, entries[..n], stamps[..n]), status,
             e.text, e.speakerId, Some(e.translatedText), stamps[n])
  }

  /** Re-adding one more buffered entry is one more `addTranscript`. */
  lemma ReaddSnoc(transcripts: seq<Entry>, status: Status, entries: seq<Entry>, stamps: seq<Stamp>, i: nat)
    requires |stamps| == |entries| && i < |entries|
    ensures Readd(transcripts, status, entries[..i + 1], stamps[..i + 1])
         == Append(Readd(transcripts, status, entries[..i], stamps[..i]), status,
                   entries[i].text, entries[i].speakerId, Some(entries[i].translatedText), stamps[i])
  {
    assert entries[..i + 1][..i] == entries[..i] && stamps[..i + 1][..i] == stamps[..i];
    assert entries[..i + 1][i] == entries[i] && stamps[..i + 1][i] == stamps[i];
  }

  /** An entry as the replay adds it back: the same text, speaker, label and
      translation, with the identity and time of the moment it is re-added. */
  function Restamp(e: Entry, stamp: Stamp): (copy: Entry)
    ensures copy.id == stamp.id && copy.timestamp == stamp.timestamp
    ensures copy.(id := e.id, timestamp := e.timestamp) == e
  {
    e.(id := stamp.id, timestamp := stamp.timestamp)
  }

  /** `x` is `e` added back with `stamp`: the same text, speaker and
      translation, the new identity and time, and the label `addTranscript`
      gives the speaker (which is `e`'s own when `e` is well labelled). */
  ghost predicate Restored(x: Entry, e: Entry, stamp: Stamp)
  {
    x == e.(id := stamp.id, timestamp := stamp.timestamp, speakerLabel := SpeakerLabel(e.speakerId))
  }

  /** Outside `recording` the gate drops every re-added entry; while
      recording the entries come back after `transcripts`, in buffer order,
      each one restored from its buffered entry. */
  lemma ReaddGate(transcripts: seq<Entry>, status: Status, entries: seq<Entry>, stamps: seq<Stamp>)
    requires |stamps| == |entries|
    ensures status != Recording ==> Readd(transcripts, status, entries, stamps) == transcripts
    ensures status == Recording ==>
      var r := Readd(transcripts, status, entries, stamps);
      && |r| == |transcripts| + |entries| && r[..|transcripts|] == transcripts
      && forall k :: 0 <= k < |entries| ==> Restored(r[|transcripts| + k], entries[k], stamps[k])
  {
    if status == Recording {
      ReaddRestores(transcripts, entries, stamps);
    } else {
      ReaddDropped(transcripts, status, entries, stamps);
    }
  }

  lemma {:induction false} ReaddDropped(transcripts: seq<Entry>, status: Status, entries: seq<Entry>, stamps: seq<Stamp>)
    requires |stamps| == |entries| && status != Recording
    ensures Readd(transcripts, status, entries, stamps) == transcripts
  {
    if entries != [] {
      var n := |entries| - 1;
      ReaddDropped(transcripts, status, entries[..n], stamps[..n]);
    }
  }

  lemma ReaddRestores(transcripts: seq<Entry>, entries: seq<Entry>, stamps: seq<Stamp>)
    requires |stamps| == |entries|
    ensures var r := Readd(transcripts, Recording, entries, stamps);
      && |r| == |transcripts| + |entries| && r[..|transcripts|] == transcripts
      && forall k :: 0 <= k < |entries| ==> Restored(r[|transcripts| + k], entries[k], stamps[k])
  {
    ReaddKeeps(transcripts, entries, stamps);
    var r := Readd(transcripts, Recording, entries, stamps);
    forall k | 0 <= k < |entries| ensures Restored(r[|transcripts| + k], entries[k], stamps[k]) {
      ReaddAt(transcripts, entries, stamps, k);
    }
  }

  /** While recording, re-adding keeps the list it starts from. */
  lemma {:induction false} ReaddKeeps(transcripts: seq<Entry>, entries: seq<Entry>, stamps: seq<Stamp>)
    requires |stamps| == |entries|
    ensures Readd(transcripts, Recording, entries, stamps)[..|transcripts|] == transcripts
  {
    if entries != [] {
      var n := |entries| - 1;
      var e := entries[n];
      ReaddKeeps(transcripts, entries[..n], stamps[..n]);
      var prev := Readd(transcripts, Recording, entries[..n], stamps[..n]);
      var r := Readd(transcripts, Recording, entries, stamps);
      assert r == Append(prev, Recording, e.text, e.speakerId, Some(e.translatedText), stamps[n]);
      assert r[..|transcripts|] == r[..|prev|][..|transcripts|];
    }
  }

  /** While recording, the `k`-th re-added entry is restored from the `k`-th
      buffered one. */
  lemma {:induction false} ReaddAt(transcripts: seq<Entry>, entries: seq<Entry>, stamps: seq<Stamp>, k: nat)
    requires |stamps| == |entries| && k < |entries|
    ensures Restored(Readd(transcripts, Recording, entries, stamps)[|transcripts| + k], entries[k], stamps[k])
  {
    var n := |entries| - 1;
    var e := entries[n];
    var prev := Readd(transcripts, Recording, entries[..n], stamps[..n]);
    var r := Readd(transcripts, Recording, entries, stamps);
    assert r == Append(prev, Recording, e.text, e.speakerId, Some(e.translatedText), stamps[n]);
    if k == n {
      assert |transcripts| + k == |prev|;
    } else {
      ReaddAt(transcripts, entries[..n], stamps[..n], k);
      assert r[|transcripts| + k] == r[..|prev|][|transcripts| + k];
    }
  }

  /** A replay while recording shows the buffered conversation again,
      entry for entry, with new identities and times. */
  lemma ReplayRestores(entries: seq<Entry>, stamps: seq<Stamp>)
    requires |stamps| == |entries| && WellLabelled(entries)
    ensures |Readd([], Recording, entries, stamps)| == |entries|
    ensures forall k :: 0 <= k < |entries| ==> Readd([], Recording, entries, stamps)[k] == Restamp(entries[k], stamps[k])
  {
    var none: seq<Entry> := [];
    ReaddGate(none, Recording, entries, stamps);
    var r := Readd(none, Recording, entries, stamps);
    forall k | 0 <= k < |entries| ensures r[k] == Restamp(entries[k], stamps[k]) {
      assert Restored(r[|none| + k], entries[k], stamps[k]);
    }
  }

  /** The list a replay leaves behind keeps every label in step. */
  lemma {:induction false} ReaddWellLabelled(transcripts: seq<Entry>, status: Status, entries: seq<Entry>, stamps: seq<Stamp>)
    requires |stamps| == |entries| && WellLabelled(transcripts)
    ensures WellLabelled(Readd(transcripts, status, entries, stamps))
  {
    if entries != [] {
      var n := |entries| - 1;
      var e := entries[n];
      ReaddWellLabelled(transcripts, status, entries[..n], stamps[..n]);
      AppendWellLabelled(Readd(transcripts, status, entries[..n], stamps[..n]), status,
                         e.text, e.speakerId, Some(e.translatedText), stamps[n]);
    }
  }

  class ControlPanel {
    const ctx: MeetingContext
    var isPlaying: bool
    var replayBuffer: seq<Entry>
    /** Settle timers `handleStop` has scheduled that have not fired yet;
        none is ever cancelled. */
    var pendingSettles: nat

    constructor (ctx: MeetingContext)
      ensures this.ctx == ctx && !isPlaying && replayBuffer == [] && pendingSettles == 0
    {
      this.ctx := ctx;
      isPlaying := false;
      replayBuffer := [];
      pendingSettles := 0;
    }

    /** `handleStart`: any status but `recording` becomes `recording`. */
    method HandleStart()
      modifies ctx
      ensures ctx.recordingStatus == Recording
      ensures ctx.transcripts == old(ctx.transcripts) && ctx.selectedLanguage == old(ctx.selectedLanguage)
    {
      if ctx.recordingStatus != Recording {
        ctx.SetRecordingStatus(Recording);
      }
    }

    /** `handlePause`: only `recording` becomes `paused`. */
    method HandlePause()
      modifies ctx
      ensures ctx.recordingStatus == if old(ctx.recordingStatus) == Recording then Paused else old(ctx.recordingStatus)
      ensures ctx.transcripts == old(ctx.transcripts) && ctx.selectedLanguage == old(ctx.selectedLanguage)
    {
      if ctx.recordingStatus == Recording {
        ctx.SetRecordingStatus(Paused);
      }
    }

    /** `handleStop`: from `recording` or `paused`, set `stopped`, copy the
        transcript list into the replay buffer and schedule the settle timer
        that will set `idle`; from any other status, nothing. */
    method HandleStop()
      modifies ctx, this`replayBuffer, this`pendingSettles
      ensures ctx.transcripts == old(ctx.transcripts) && ctx.selectedLanguage == old(ctx.selectedLanguage)
      ensures old(ctx.recordingStatus) in {Recording, Paused} ==>
        && ctx.recordingStatus == Stopped
        && replayBuffer == old(ctx.transcripts)
        && pendingSettles == old(pendingSettles) + 1
      ensures old(ctx.recordingStatus) !in {Recording, Paused} ==>
        && ctx.recordingStatus == old(ctx.recordingStatus)
        && replayBuffer == old(replayBuffer)
        && pendingSettles == old(pendingSettles)
    {
      if ctx.recordingStatus == Recording || ctx.recordingStatus == Paused {
        ctx.SetRecordingStatus(Stopped);
        replayBuffer := ctx.transcripts;   // [...transcripts]
        pendingSettles := pendingSettles + 1;   // setTimeout(..., 500)
      }
    }

    /** One settle timer fires: the status becomes `idle`, whatever it is now. */
    method SettleTimerFires()
      requires pendingSettles > 0
      modifies ctx, this`pendingSettles
      ensures ctx.recordingStatus == Idle && pendingSettles == old(pendingSettles) - 1
      ensures ctx.transcripts == old(ctx.transcripts) && ctx.selectedLanguage == old(ctx.selectedLanguage)
    {
      pendingSettles := pendingSettles - 1;
      ctx.SetRecordingStatus(Idle);
    }

    /** `handleReplay`, run to completion: nothing for an empty buffer;
        otherwise clear the list and add every buffered entry back in order,
        `stamps[i]` giving the identity and time of the `i`-th add. */
    method HandleReplay(stamps: seq<Stamp>)
      requires |stamps| == |replayBuffer|
      modifies ctx, this`isPlaying
      ensures replayBuffer == [] ==> ctx.transcripts == old(ctx.transcripts) && isPlaying == old(isPlaying)
      ensures replayBuffer != [] ==>
        ctx.transcripts == Readd([], ctx.recordingStatus, replayBuffer, stamps) && !isPlaying
      ensures ctx.recordingStatus == old(ctx.recordingStatus) && ctx.selectedLanguage == old(ctx.selectedLanguage)
      ensures replayBuffer == old(replayBuffer)
    {
      if |replayBuffer| == 0 {
        return;
      }
      isPlaying := true;
      ctx.ClearTranscripts();
      for i := 0 to |replayBuffer|
        invariant ctx.transcripts == Readd([], ctx.recordingStatus, replayBuffer[..i], stamps[..i])
        invariant ctx.recordingStatus == old(ctx.recordingStatus) && ctx.selectedLanguage == old(ctx.selectedLanguage)
        invariant isPlaying   // the Play button stays disabled while entries are re-added
      {
        var e := replayBuffer[i];
        ReaddSnoc([], ctx.recordingStatus, replayBuffer, stamps, i);
        ctx.AddTranscript(e.text, e.speakerId, Some(e.translatedText), stamps[i]);
      }
      assert replayBuffer[..|replayBuffer|] == replayBuffer && stamps[..|stamps|] == stamps;
      isPlaying := false;
    }
  }
}
