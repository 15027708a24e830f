/** The colour a transcript bubble gets for its speaker: a fixed table of
    ten colours indexed by the speaker id modulo ten. */
module SpeakerColors {
  import opened Js

  const COLORS: seq<string> := [
    "#DCF8C6", // light green
    "#E6E6FA", // lavender
    "#FFF0F5", // lavender blush
    "#FFEBCC", // light orange
    "#E0FFFF", // light cyan
    "#FDE2E4", // light pink
    "#D3F8E2", // mint
    "#E4C1F9", // lilac
    "#C1F9E4", // aqua green
    "#F9E4C1"  // pale yellow
  ]

  /** `COLORS[speakerId % COLORS.length]`. JavaScript's remainder keeps the
      sign of a negative id, and a negative index reads `undefined` (None);
      a multiple of ten gives `-0`, which indexes the first entry. */
  function SpeakerColor(speakerId: int): (color: Option<string>)
    ensures speakerId >= 0 ==> color == Some(COLORS[speakerId % 10])
    ensures color.None? <==> speakerId < 0 && speakerId % 10 != 0
    ensures color.Some? ==> color.value in COLORS
  {
    var k := Rem(speakerId, |COLORS|);
    if k < 0 then None else Some(COLORS[k])
  }

  /** The colours repeat with period ten, except across zero: ids -9..-1
      have no colour while ids 1..9 have one. */
  lemma ColorPeriod(speakerId: int)
    ensures SpeakerColor(speakerId + 10) == SpeakerColor(speakerId) <==> !(-10 < speakerId < 0)
  {
    var k := speakerId;
    if k >= 0 {
      assert (k + 10) % 10 == k % 10;
    } else if k <= -10 {
      var n: nat := -k;
      assert (n - 10) % 10 == n % 10;
      assert Rem(k + 10, 10) == -((n - 10) % 10);
      assert Rem(k + 10, 10) == Rem(k, 10);
    } else {
      assert SpeakerColor(k) == None;
      assert SpeakerColor(k + 10).Some?;
    }
  }

  /** The first ten speakers get ten different colours. */
  lemma FirstTenDistinct(i: int, j: int)
    requires 0 <= i < j < 10
    ensures SpeakerColor(i) != SpeakerColor(j)
  {
  }

  /** Speaker 0 is drawn in light green. */
  lemma FirstSpeakerColor()
    ensures SpeakerColor(0) == Some("#DCF8C6")
  {
  }
}
