/**
 * Which error a caller of `parse_srt_from_slice` sees. As written, every
 * grammar Error surfaces as `Unknown`, so the clause tags `parse_sub` attaches
 * never reach the caller; `ParseSrtFromSliceTagged` reports them.
 */
module ErrorReporting {
  import opened Ascii
  import opened Decimal
  import opened NomTypes
  import opened Subtitles
  import opened Parser
  import opened SubTitleProofs
  import opened Examples

  /**
   * `parse_srt` reports every Error as `Many1`, whatever went wrong inside
   * the first entry, so converting its kind with `From<ErrorKind>` gives
   * `Unknown` as well: the tag has to come from the first entry itself.
   */
  lemma RepetitionHidesTag(input: seq<byte>)
    requires ParseSub(input).Error?
    ensures FromErrorKind(ParseSrt(input).kind) == ParseError.Unknown
    ensures ParseSrtFromSlice(input) == Err(ParseError.Unknown)
  {
  }

  /** A first entry whose start time is malformed: Unknown as written, StartTime when tagged. */
  lemma StartTimeError(d: seq<byte>, lb: seq<byte>, t: seq<byte>)
    requires IsRun(d) && Value(d) < 0x1_0000_0000 && IsLineBreak(lb)
    requires ParseTime(t).Error?
    ensures ParseSrtFromSlice(d + (lb + t)) == Err(ParseError.Unknown)
    ensures ParseSrtFromSliceTagged(d + (lb + t)) == Err(StartTime)
  {
    StartTimeFailure(d, lb, t);
  }

  /** A first entry whose arrow is malformed: Unknown as written, ArrowBetweenTimes when tagged. */
  lemma ArrowError(d: seq<byte>, lb: seq<byte>, st: Time, x: seq<byte>)
    requires IsRun(d) && Value(d) < 0x1_0000_0000 && IsLineBreak(lb)
    requires StopsRun(x) && !(Arrow <= x) && !(x < Arrow)
    ensures ParseSrtFromSlice(d + (lb + (DisplayTime(st) + x))) == Err(ParseError.Unknown)
    ensures ParseSrtFromSliceTagged(d + (lb + (DisplayTime(st) + x))) == Err(ArrowBetweenTimes)
  {
    ArrowFailure(d, lb, st, x);
  }

  /** A first entry whose end time is malformed: Unknown as written, EndTime when tagged. */
  lemma EndTimeError(d: seq<byte>, lb: seq<byte>, st: Time, t: seq<byte>)
    requires IsRun(d) && Value(d) < 0x1_0000_0000 && IsLineBreak(lb)
    requires ParseTime(t).Error?
    ensures ParseSrtFromSlice(d + (lb + (DisplayTime(st) + (Arrow + t)))) == Err(ParseError.Unknown)
    ensures ParseSrtFromSliceTagged(d + (lb + (DisplayTime(st) + (Arrow + t)))) == Err(EndTime)
  {
    EndTimeFailure(d, lb, st, t);
  }

  /** The start-time test entry of `parse_sub`, given as a whole document. */
  lemma StartTimeErrorExample()
    ensures var input := Bytes("1" + "\n" + ("01" + ":" + "42" + ":" + "05" + "," + (",123" + " --> 01:42:06,456\nFirst line\nSecond line\n\n")));
      && ParseSrtFromSlice(input) == Err(ParseError.Unknown)
      && ParseSrtFromSliceTagged(input) == Err(StartTime)
  {
    ParseSubStartTimeError();
  }
}
