/**
 * The SubRip grammar: `parse_time`, `parse_sub`, `parse_srt`, the boundary
 * `parse_srt_from_slice` and the mapping of nom error kinds onto
 * `ParseError`.
 */
module Parser {
  import opened Ascii
  import opened Decimal
  import opened NomTypes
  import Nom
  import opened Subtitles

  /** The failures a caller sees (the I/O variant of the file loader is not part of this model). */
  datatype ParseError = Incomplete | StartTime | ArrowBetweenTimes | EndTime | Unknown

  datatype Result<+T> = Ok(value: T) | Err(error: ParseError)

  /** `From<ErrorKind> for ParseError`: the three custom tags name the clause that failed; every other kind is Unknown. */
  function FromErrorKind(k: ErrorKind): (e: ParseError)
    ensures e == StartTime <==> k == ErrorKind.Custom(1)
    ensures e == ArrowBetweenTimes <==> k == ErrorKind.Custom(2)
    ensures e == EndTime <==> k == ErrorKind.Custom(3)
    ensures e != ParseError.Incomplete
  {
    match k
    case Custom(1) => StartTime
    case Custom(2) => ArrowBetweenTimes
    case Custom(3) => EndTime
    case _ => ParseError.Unknown
  }

  /**
   * `map_res!(map_res!(digit, str::from_utf8), uN::from_str)` for an unsigned
   * type whose values are those below `limit`: a digit run, leading zeros
   * allowed, decoded as a number; Error(MapRes) when it does not fit.
   * (`str::from_utf8` cannot fail on ASCII digits.)
   */
  function Number(input: seq<byte>, limit: nat): (r: IResult<nat>)
    ensures Advances(input, r)
    ensures r.Done? ==> r.value < limit && |r.rest| < |input|
    ensures r.Incomplete? <==> input == []
    ensures r.Error? ==> r.kind == ErrorKind.Digit || r.kind == ErrorKind.MapRes
  {
    match Nom.Digit(input)
    case Done(rest, run) =>
      if Value(run) < limit then Done(rest, Value(run)) else Error(ErrorKind.MapRes)
    case Error(k) => Error(k)
    case Incomplete(n) => IResult.Incomplete(n)
  }

  /** A digit run that nothing extends decodes to its value, or fails with MapRes when the value does not fit. */
  lemma NumberRun(d: seq<byte>, rest: seq<byte>, limit: nat)
    requires IsRun(d) && StopsRun(rest)
    ensures Number(d + rest, limit)
      == if Value(d) < limit then Done(rest, Value(d)) else Error(ErrorKind.MapRes)
  {
    Nom.DigitRun(d, rest);
  }

  /**
   * An hours, minutes or seconds field of `parse_time` and the separator
   * after it: a u8, then the byte `sep`, as `do_parse!` runs the two steps.
   */
  function Field(input: seq<byte>, sep: byte): (r: IResult<nat>)
    ensures Advances(input, r)
    ensures r.Done? ==> r.value < 0x100 && |r.rest| < |input|
  {
    var n := Number(input, 0x100);
    if !n.Done? then Fail(n, 0) else
    var c := Nom.Char(n.rest, sep);
    if !c.Done? then Fail(c, |input| - |n.rest|) else
    Done(c.rest, n.value)
  }

  /** `parse_time`: digits ':' digits ':' digits ',' digits, as u8, u8, u8 and u16. */
  function ParseTime(input: seq<byte>): (r: IResult<Time>)
    ensures Advances(input, r)
  {
    var h := Field(input, Colon);
    if !h.Done? then Fail(h, 0) else
    var m := Field(h.rest, Colon);
    if !m.Done? then Fail(m, |input| - |h.rest|) else
    var s := Field(m.rest, Comma);
    if !s.Done? then Fail(s, |input| - |m.rest|) else
    var ms := Number(s.rest, 0x1_0000);
    if !ms.Done? then Fail(ms, |input| - |s.rest|) else
    Done(ms.rest, Time(h.value, m.value, s.value, ms.value))
  }

  /** `alt!(tag!("\n") | crlf)`: a line break, "\n" or "\r\n". */
  function LineBreak(input: seq<byte>): (r: IResult<seq<byte>>)
    ensures Advances(input, r)
    ensures r.Done? <==> [NL] <= input || [CR, NL] <= input
    ensures [NL] <= input ==> r == Done(input[1..], [NL])
    ensures [CR, NL] <= input ==> r == Done(input[2..], [CR, NL])
    ensures r.Incomplete? <==> input == [] || input == [CR]
    ensures r.Error? ==> r.kind == ErrorKind.Alt
  {
    assert input != [] ==> ([NL] <= input <==> input[0] == NL);
    assert input < [CR, NL] <==> input == [] || input == [CR];
    Nom.Alt(Nom.Tag(input, [NL]), Nom.Crlf(input))
  }

  /**
   * Stands for `str::from_utf8` accepting the text body. The model accepts
   * ASCII only, a subset of what UTF-8 validation accepts.
   */
  predicate ValidText(text: seq<byte>) {
    IsAscii(text)
  }

  /**
   * `map_res!(map_res!(take_until_and_consume!("\n\n"), str::from_utf8), String::from_str)`:
   * the bytes before the first "\n\n", which is consumed and dropped.
   */
  function TextBody(input: seq<byte>): (r: IResult<seq<byte>>)
    ensures Advances(input, r)
    ensures r.Done? ==> input == r.value + BlankLine + r.rest && ValidText(r.value)
    ensures r.Done? ==> forall k: nat :: k < |r.value| ==> !Nom.OccursAt(input, BlankLine, k)
    ensures r.Incomplete? <==> |input| < 2
    ensures r.Error? <==> 2 <= |input| && ((forall k: nat :: !Nom.OccursAt(input, BlankLine, k))
                                           || !ValidText(Nom.TakeUntilAndConsume(input, BlankLine).value))
  {
    match Nom.TakeUntilAndConsume(input, BlankLine)
    case Done(rest, txt) =>
      if ValidText(txt) then Done(rest, txt) else Error(ErrorKind.MapRes)
    case Error(k) => Error(k)
    case Incomplete(n) => IResult.Incomplete(n)
  }

  /**
   * `parse_sub`: an index, a line break, the start time (an Error re-tagged
   * Custom(1)), " --> " (Custom(2)), the end time (Custom(3)), a line break,
   * and the text up to and including the first "\n\n".
   */
  function ParseSub(input: seq<byte>): (r: IResult<SubTitle>)
    ensures Advances(input, r)
    ensures r.Done? ==> |r.rest| < |input|
  {
    var idx := Number(input, 0x1_0000_0000);
    if !idx.Done? then Fail(idx, 0) else
    var lb1 := LineBreak(idx.rest);
    if !lb1.Done? then Fail(lb1, |input| - |idx.rest|) else
    var st := Nom.AddReturnError(ErrorKind.Custom(1), ParseTime(lb1.rest));
    if !st.Done? then Fail(st, |input| - |lb1.rest|) else
    var arrow := Nom.AddReturnError(ErrorKind.Custom(2), Nom.Tag(st.rest, Arrow));
    if !arrow.Done? then Fail(arrow, |input| - |st.rest|) else
    var en := Nom.AddReturnError(ErrorKind.Custom(3), ParseTime(arrow.rest));
    if !en.Done? then Fail(en, |input| - |arrow.rest|) else
    var lb2 := LineBreak(en.rest);
    if !lb2.Done? then Fail(lb2, |input| - |en.rest|) else
    var txt := TextBody(lb2.rest);
    if !txt.Done? then Fail(txt, |input| - |lb2.rest|) else
    Done(txt.rest, SubTitle(idx.value, st.value, en.value, txt.value))
  }

  /**
   * `parse_srt`: one or more entries read one after another; the values are
   * the entries `parse_sub` reads in order, and the repetition stops only
   * where the next entry cannot be read.
   */
  function ParseSrt(input: seq<byte>): (r: IResult<Srt>)
    ensures Advances(input, r)
    ensures r.Done? ==> |r.value.subs| >= 1 && Nom.Chain(ParseSub, input, r.value.subs, r.rest)
    ensures r.Done? ==> Nom.Stuck(ParseSub, r.rest)
    ensures r.Error? <==> ParseSub(input).Error?
    ensures r.Error? ==> r.kind == ErrorKind.Many1
  {
    var subs := Nom.Many1(ParseSub, input);
    if !subs.Done? then Fail(subs, 0) else Done(subs.rest, Srt(subs.value))
  }

  /**
   * `parse_srt_from_slice`: every grammar Error becomes Unknown, Incomplete
   * stays Incomplete, and on success the unconsumed bytes are dropped.
   */
  function ParseSrtFromSlice(input: seq<byte>): (r: Result<Srt>)
    ensures r.Ok? <==> ParseSrt(input).Done?
    ensures r.Ok? ==> |r.value.subs| >= 1 && Nom.Chain(ParseSub, input, r.value.subs, ParseSrt(input).rest)
    ensures r == Err(ParseError.Unknown) <==> ParseSub(input).Error?
    ensures r == Err(ParseError.Incomplete) <==> ParseSrt(input).Incomplete?
    ensures r.Err? ==> r.error == ParseError.Unknown || r.error == ParseError.Incomplete
  {
    match ParseSrt(input)
    case Error(_) => Err(ParseError.Unknown)
    case Incomplete(_) => Err(ParseError.Incomplete)
    case Done(_, srt) => Ok(srt)
  }

  /**
   * `parse_srt_from_slice` with the first entry's error kind passed through
   * `From<ErrorKind>`, so that a clause tag reaches the caller; everything
   * else is as in `ParseSrtFromSlice`.
   */
  function ParseSrtFromSliceTagged(input: seq<byte>): (r: Result<Srt>)
    ensures r.Ok? <==> ParseSrtFromSlice(input).Ok?
    ensures r.Ok? ==> r == ParseSrtFromSlice(input)
    ensures r == Err(ParseError.Incomplete) <==> ParseSrtFromSlice(input) == Err(ParseError.Incomplete)
    ensures r == Err(StartTime) <==> ParseSub(input) == Error(ErrorKind.Custom(1))
    ensures r == Err(ArrowBetweenTimes) <==> ParseSub(input) == Error(ErrorKind.Custom(2))
    ensures r == Err(EndTime) <==> ParseSub(input) == Error(ErrorKind.Custom(3))
  {
    var first := ParseSub(input);
    if first.Error? then Err(FromErrorKind(first.kind)) else ParseSrtFromSlice(input)
  }
}
