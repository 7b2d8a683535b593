/** Two display helpers that the speech list and the speech player define
    identically: the duration as minutes and two-digit seconds, and the
    label of a speech status. */
module Display {
  import opened Common

  /** `padStart(2, '0')` for a string of at most two characters. */
  function PadTwo(s: string): (r: string)
    requires |s| <= 2
    ensures |r| == 2
  {
    if |s| == 0 then "00" else if |s| == 1 then "0" + s else s
  }

  /** `formatTime`: no duration, or a duration of 0, is "Unknown"; otherwise
      whole minutes, a colon and the seconds padded to two digits. */
  function FormatTime(seconds: Option<nat>): string
  {
    if seconds.None? || seconds.value == 0 then "Unknown"
    else
      var secs := NatToString(seconds.value % 60);
      NatToStringBound(seconds.value % 60);
      NatToString(seconds.value / 60) + ":" + PadTwo(secs)
  }

  /** A number below 100 prints with at most two digits. */
  lemma NatToStringBound(n: nat)
    requires n < 100
    ensures |NatToString(n)| <= 2
  {
    if n >= 10 {
      assert NatToString(n) == NatToString(n / 10) + [DigitChar(n % 10)];
    }
  }

  /** Leading zeros do not change the number a digit string stands for. */
  lemma ParsePadTwo(s: string)
    requires |s| <= 2 && AllDigits(s)
    ensures AllDigits(PadTwo(s))
    ensures ParseDigits(PadTwo(s)) == ParseDigits(s)
  {
    var p := PadTwo(s);
    assert p[..1][..0] == [];
    if |s| == 1 {
      assert p[..1] == "0";
      assert s[..0] == [];
    } else if |s| == 2 {
      assert s[..1][..0] == [];
    }
  }

  /** A known duration reads back: everything before the colon is the minutes,
      the two digits after it are the seconds below 60, and together they give
      the duration. */
  lemma FormatTimeRoundTrip(seconds: nat)
    requires seconds > 0
    ensures var t := FormatTime(Some(seconds));
            && |t| >= 4 && t[|t| - 3] == ':'
            && AllDigits(t[..|t| - 3]) && AllDigits(t[|t| - 2..])
            && ParseDigits(t[|t| - 2..]) < 60
            && ParseDigits(t[..|t| - 3]) * 60 + ParseDigits(t[|t| - 2..]) == seconds
  {
    var m, s := seconds / 60, seconds % 60;
    NatToStringBound(s);
    ParsePadTwo(NatToString(s));
    var t := FormatTime(Some(seconds));
    var ms, ss := NatToString(m), PadTwo(NatToString(s));
    assert t == ms + ":" + ss;
    assert t[..|t| - 3] == ms;
    assert t[|t| - 2..] == ss;
    ParseNatToString(m);
    ParseNatToString(s);
  }

  /** "Unknown" is shown exactly for a missing or zero duration. */
  lemma FormatTimeUnknown(seconds: Option<nat>)
    ensures FormatTime(seconds) == "Unknown" <==> seconds.None? || seconds.value == 0
  {
    if seconds.Some? && seconds.value > 0 {
      var t := FormatTime(seconds);
      NatToStringBound(seconds.value % 60);
      assert t[|t| - 3] == ':';
    }
  }

  /** The statuses a speech can have. */
  predicate KnownStatus(status: string)
  {
    status == "draft" || status == "practicing" || status == "delivered" || status == "archived"
  }

  /** `getStatusLabel`: a known status is shown capitalised; any other value
      is "Unknown". */
  function StatusLabel(status: string): (shown: string)
    ensures shown == "Unknown" <==> !KnownStatus(status)
    ensures KnownStatus(status) ==>
              && |shown| == |status| && shown[1..] == status[1..]
              && 'A' <= shown[0] <= 'Z' && LowerChar(shown[0]) == status[0]
  {
    if status == "draft" then "Draft"
    else if status == "practicing" then "Practicing"
    else if status == "delivered" then "Delivered"
    else if status == "archived" then "Archived"
    else "Unknown"
  }
}
