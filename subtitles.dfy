/**
 * The SubRip value types (`Srt`, `Time`, `SubTitle`) and their `Display`
 * serializations to bytes.
 */
module Subtitles {
  import opened Ascii
  import opened Decimal

  type u8 = n: nat | n < 0x100
  type u16 = n: nat | n < 0x1_0000
  type u32 = n: nat | n < 0x1_0000_0000

  /** An offset into the video; the parser bounds each field only by its integer type. */
  datatype Time = Time(hours: u8, minutes: u8, seconds: u8, milliseconds: u16)

  /** One cue: its sequence number, its time range and its (possibly multi-line) text. */
  datatype SubTitle = SubTitle(index: u32, startTime: Time, endTime: Time, text: seq<byte>)

  /** A whole document: its cues in the order they appear. */
  datatype Srt = Srt(subs: seq<SubTitle>)

  /** `Display for Time`: "{:02}:{:02}:{:02},{:03}". */
  function DisplayTime(t: Time): seq<byte> {
    PadLeft(Digits(t.hours), 2) + [Colon]
    + PadLeft(Digits(t.minutes), 2) + [Colon]
    + PadLeft(Digits(t.seconds), 2) + [Comma]
    + PadLeft(Digits(t.milliseconds), 3)
  }

  /** `Display for SubTitle`: "{}\n{} --> {}\n{}\n", a single newline after the text. */
  function DisplaySubTitle(e: SubTitle): seq<byte> {
    Digits(e.index) + [NL]
    + DisplayTime(e.startTime) + Arrow + DisplayTime(e.endTime) + [NL]
    + e.text + [NL]
  }

  /**
   * A serialized time is four digit runs separated by ':' ':' ',', each
   * denoting its field: hours, minutes and seconds at least two digits wide,
   * milliseconds at least three, wider rather than truncated when the value
   * needs more digits.
   */
  lemma DisplayTimeFields(t: Time)
    ensures var h, m, s, ms :=
        PadLeft(Digits(t.hours), 2), PadLeft(Digits(t.minutes), 2),
        PadLeft(Digits(t.seconds), 2), PadLeft(Digits(t.milliseconds), 3);
      && DisplayTime(t) == h + [Colon] + m + [Colon] + s + [Comma] + ms
      && IsRun(h) && Value(h) == t.hours && |h| == Max(2, |Digits(t.hours)|)
      && IsRun(m) && Value(m) == t.minutes && |m| == Max(2, |Digits(t.minutes)|)
      && IsRun(s) && Value(s) == t.seconds && |s| == Max(2, |Digits(t.seconds)|)
      && IsRun(ms) && Value(ms) == t.milliseconds && |ms| == Max(3, |Digits(t.milliseconds)|)
  {
    Padded(t.hours, 2);
    Padded(t.minutes, 2);
    Padded(t.seconds, 2);
    Padded(t.milliseconds, 3);
  }

  function Max(a: nat, b: nat): nat {
    if a < b then b else a
  }

  /**
   * With hours, minutes and seconds at most 99 and milliseconds at most 999,
   * a serialized time is exactly the 12 bytes "HH:MM:SS,mmm".
   */
  lemma DisplayTimeLength(t: Time)
    requires t.hours <= 99 && t.minutes <= 99 && t.seconds <= 99 && t.milliseconds <= 999
    ensures |DisplayTime(t)| == 12
    ensures DisplayTime(t)[2] == Colon && DisplayTime(t)[5] == Colon && DisplayTime(t)[8] == Comma
    ensures forall i :: 0 <= i < 12 && i != 2 && i != 5 && i != 8 ==> IsDigit(DisplayTime(t)[i])
  {
    PaddedWidth(t.hours, 2);
    PaddedWidth(t.minutes, 2);
    PaddedWidth(t.seconds, 2);
    PaddedWidth(t.milliseconds, 3);
    DisplayTimeFields(t);
  }

  /** Values above 99 (or 999) widen their field: 100 hours serialize as "100:00:00,000". */
  lemma DisplayTimeWidens()
    ensures DisplayTime(Time(100, 0, 0, 1000)) == Bytes("100:00:00,1000")
  {
  }
}
