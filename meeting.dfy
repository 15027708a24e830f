/** The shared meeting context: the transcript list, the recording status
    and the selected language, with the recording gate on every append. */
module Meeting {
  import opened Js

  datatype Status = Idle | Recording | Paused | Stopped

  /** The fresh identity and wall-clock time an entry is created with (from
      `Date.now`, `Math.random` and `toLocaleTimeString`), supplied by the
      caller because the model has no clock and no randomness. */
  datatype Stamp = Stamp(id: string, timestamp: string)

  datatype Entry = Entry(
    id: string,
    text: string,
    speakerId: int,
    translatedText: string,
    timestamp: string,
    speakerLabel: string)

  const SPEAKER_PREFIX := "Speaker "

  /** `getSpeakerLabel`: speakers are numbered from one. */
  function SpeakerLabel(speakerId: int): (tag: string)
    ensures |tag| > |SPEAKER_PREFIX| && tag[..|SPEAKER_PREFIX|] == SPEAKER_PREFIX
    ensures speakerId + 1 >= 0 ==>
      var digits := tag[|SPEAKER_PREFIX|..];
      AllDigits(digits) && ParseNat(digits) == speakerId + 1 && (digits[0] == '0' ==> digits == "0")
    ensures speakerId + 1 < 0 ==>
      var digits := tag[|SPEAKER_PREFIX| + 1..];
      && tag[|SPEAKER_PREFIX|] == '-' && digits != [] && digits[0] != '0'
      && AllDigits(digits) && ParseNat(digits) == -(speakerId + 1)
  {
    var rendered := IntToString(speakerId + 1);
    var tag := SPEAKER_PREFIX + rendered;
    assert tag[|SPEAKER_PREFIX|..] == rendered;
    assert tag[|SPEAKER_PREFIX| + 1..] == rendered[1..];
    tag
  }

  /** Different speakers never share a label. */
  lemma SpeakerLabelInjective(a: int, b: int)
    requires SpeakerLabel(a) == SpeakerLabel(b)
    ensures a == b
  {
    var n := |SPEAKER_PREFIX|;
    assert SpeakerLabel(a)[n..] == IntToString(a + 1);
    assert SpeakerLabel(b)[n..] == IntToString(b + 1);
    IntToStringInjective(a + 1, b + 1);
  }

  /** The record `addTranscript` builds; `translatedText` defaults to "". */
  function NewEntry(text: string, speakerId: int, translatedText: Option<string>, stamp: Stamp): (e: Entry)
    ensures e.text == text && e.speakerId == speakerId
    ensures translatedText.None? ==> e.translatedText == ""
    ensures translatedText.Some? ==> e.translatedText == translatedText.value
    ensures e.speakerLabel == SpeakerLabel(speakerId)
    ensures e.id == stamp.id && e.timestamp == stamp.timestamp
  {
    Entry(stamp.id, text, speakerId, translatedText.OrElse(""), stamp.timestamp, SpeakerLabel(speakerId))
  }

  /** The list `addTranscript` leaves behind when called in `status`. */
  function Append(transcripts: seq<Entry>, status: Status, text: string, speakerId: int,
                  translatedText: Option<string>, stamp: Stamp): (r: seq<Entry>)
    ensures status != Recording ==> r == transcripts
    ensures status == Recording ==> |r| == |transcripts| + 1 && r[..|transcripts|] == transcripts
    ensures status == Recording ==>
      var e := r[|transcripts|];
      && e.text == text && e.speakerId == speakerId
      && e.translatedText == (if translatedText.Some? then translatedText.value else "")
      && e.speakerLabel == SpeakerLabel(speakerId)
      && e.id == stamp.id && e.timestamp == stamp.timestamp
  {
    if status != Recording then transcripts
    else transcripts + [NewEntry(text, speakerId, translatedText, stamp)]
  }

  class MeetingContext {
    var transcripts: seq<Entry>
    var recordingStatus: Status
    var selectedLanguage: string

    /** The provider's initial state. */
    constructor ()
      ensures transcripts == [] && recordingStatus == Idle && selectedLanguage == "English"
    {
      transcripts := [];
      recordingStatus := Idle;
      selectedLanguage := "English";
    }

    /** `addTranscript`: a no-op unless recording, otherwise appends one entry. */
    method AddTranscript(text: string, speakerId: int, translatedText: Option<string>, stamp: Stamp)
      modifies this
      ensures transcripts == Append(old(transcripts), old(recordingStatus), text, speakerId, translatedText, stamp)
      ensures recordingStatus == old(recordingStatus) && selectedLanguage == old(selectedLanguage)
    {
      if recordingStatus != Recording {
        return;
      }
      transcripts := transcripts + [NewEntry(text, speakerId, translatedText, stamp)];
    }

    /** `clearTranscripts`: empties the list whatever the status. */
    method ClearTranscripts()
      modifies this
      ensures transcripts == []
      ensures recordingStatus == old(recordingStatus) && selectedLanguage == old(selectedLanguage)
    {
      transcripts := [];
    }

    /** `setRecordingStatus`. */
    method SetRecordingStatus(status: Status)
      modifies this
      ensures recordingStatus == status
      ensures transcripts == old(transcripts) && selectedLanguage == old(selectedLanguage)
    {
      recordingStatus := status;
    }

    /** `setSelectedLanguage`, called by the language picker. */
    method SetSelectedLanguage(name: string)
      modifies this
      ensures selectedLanguage == name
      ensures transcripts == old(transcripts) && recordingStatus == old(recordingStatus)
    {
      selectedLanguage := name;
    }
  }
}
