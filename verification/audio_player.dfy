/** The audio player widget: the `M:SS` time label and the control handlers over
    the component's play, mute, volume, position and source state. */
module AudioPlayer {
  import opened Wrappers
  import opened Decimal

  /** Volume is kept in tenths: the slider spans 0 to 1 in steps of 0.1. */
  const MaxVolume: nat := 10

  /** `formatTime`: whole minutes, a colon, then the remaining seconds padded to
      two digits. Read back, the two fields give the time again. */
  function FormatTime(t: nat): (r: string)
    ensures |r| >= 4 && r[|r| - 3] == ':'
    ensures AllDigits(r[..|r| - 3]) && AllDigits(r[|r| - 2..])
    ensures DigitsValue(r[|r| - 2..]) < 60
    ensures DigitsValue(r[..|r| - 3]) * 60 + DigitsValue(r[|r| - 2..]) == t
    ensures r[0] == '0' ==> t < 60 && |r| == 4
  {
    var m := NatToString(t / 60);
    var s := PadStart(NatToString(t % 60), 2, '0');
    LabelFields(m, s);
    TwoPlaces(t % 60);
    DigitsValueOfNatToString(t / 60);
    m + ":" + s
  }

  /** The two fields of a label sit on either side of its third-last character. */
  lemma LabelFields(m: string, s: string)
    requires |s| == 2
    ensures var r := m + ":" + s; r[..|r| - 3] == m && r[|r| - 2..] == s && r[|r| - 3] == ':'
  {
  }

  /** Reads an `M:SS` label back into seconds. */
  function ParseTime(s: string): Option<nat> {
    if |s| >= 4 && s[|s| - 3] == ':' && AllDigits(s[..|s| - 3]) && AllDigits(s[|s| - 2..])
       && DigitsValue(s[|s| - 2..]) < 60
    then Some(DigitsValue(s[..|s| - 3]) * 60 + DigitsValue(s[|s| - 2..]))
    else None
  }

  /** Every label the player shows reads back as the time it was made from. */
  lemma ParseFormatTime(t: nat)
    ensures ParseTime(FormatTime(t)) == Some(t)
  {
  }

  /** Two different times never get the same label. */
  lemma FormatTimeInjective(a: nat, b: nat)
    requires FormatTime(a) == FormatTime(b)
    ensures a == b
  {
    ParseFormatTime(a);
    ParseFormatTime(b);
  }

  class Player {
    var isPlaying: bool
    var currentTime: nat
    var duration: nat
    var volume: nat
    var isMuted: bool
    var audioSrc: Option<string>

    /** The `<audio>` element is rendered, and so the ref is set, exactly when a
        source has been chosen. */
    predicate HasElement()
      reads this
    {
      audioSrc.Some?
    }

    /** The volume is on the slider's scale, and playback is only ever on while
        there is an element to play. */
    ghost predicate Valid()
      reads this
    {
      volume <= MaxVolume && (isPlaying ==> HasElement())
    }

    constructor ()
      ensures Valid()
      ensures !isPlaying && currentTime == 0 && duration == 0
      ensures volume == MaxVolume && !isMuted && audioSrc == None
    {
      isPlaying := false;
      currentTime := 0;
      duration := 0;
      volume := MaxVolume;
      isMuted := false;
      audioSrc := None;
    }

    /** The file input. `objectUrl` is the URL made for the chosen file, or `None`
        when the selection is empty; such URLs are never empty. */
    method HandleFileChange(objectUrl: Option<string>)
      requires Valid()
      requires objectUrl.Some? ==> objectUrl.value != ""
      modifies this`audioSrc
      ensures Valid()
      ensures audioSrc == if objectUrl.Some? then objectUrl else old(audioSrc)
    {
      if objectUrl.Some? {
        audioSrc := objectUrl;
      }
    }

    /** The play/pause button: flips the play state when there is an element. */
    method TogglePlay()
      requires Valid()
      modifies this`isPlaying
      ensures Valid()
      ensures isPlaying == if HasElement() then !old(isPlaying) else old(isPlaying)
    {
      if HasElement() {
        isPlaying := !isPlaying;
      }
    }

    /** The position slider: the shown position follows it whether or not there is an element. */
    method HandleSeek(time: nat)
      requires Valid()
      modifies this`currentTime
      ensures Valid()
      ensures currentTime == time
    {
      currentTime := time;
    }

    /** The volume slider: the volume follows it, and the player counts as muted
        exactly when the new volume is zero, whether or not there is an element. */
    method HandleVolumeChange(newVolume: nat)
      requires Valid()
      requires newVolume <= MaxVolume
      modifies this`volume, this`isMuted
      ensures Valid()
      ensures volume == newVolume
      ensures isMuted <==> newVolume == 0
    {
      volume := newVolume;
      isMuted := newVolume == 0;
    }

    /** The mute button: flips the muted state when there is an element. */
    method ToggleMute()
      requires Valid()
      modifies this`isMuted
      ensures Valid()
      ensures isMuted == if HasElement() then !old(isMuted) else old(isMuted)
    {
      if HasElement() {
        isMuted := !isMuted;
      }
    }
  }
}
