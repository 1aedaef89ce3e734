/** What `parse_time` accepts and rejects, and the round trip with `Display for Time`. */
module TimeProofs {
  import opened Ascii
  import opened Decimal
  import opened NomTypes
  import Nom
  import opened Subtitles
  import opened Parser

  /** A field followed by its separator: its value when it fits, MapRes when it does not. */
  lemma FieldRun(d: seq<byte>, sep: byte, rest: seq<byte>)
    requires IsRun(d) && !IsDigit(sep)
    ensures Field(d + ([sep] + rest), sep)
      == if Value(d) < 0x100 then Done(rest, Value(d)) else Error(ErrorKind.MapRes)
  {
    NumberRun(d, [sep] + rest, 0x100);
    assert ([sep] + rest)[1..] == rest;
  }

  /** A field that ends the input asks for one byte more than it has: its separator. */
  lemma FieldAtEnd(d: seq<byte>, sep: byte)
    requires IsRun(d) && Value(d) < 0x100
    ensures Field(d, sep).Incomplete? && Field(d, sep).needed == Size(|d| + 1)
  {
    NumberRun(d, [], 0x100);
    assert d + [] == d;
  }

  /** A number that is read leaves the bytes after its digits. */
  lemma NumberSuffix(input: seq<byte>, limit: nat)
    ensures Number(input, limit).Done? ==> IsSuffix(Number(input, limit).rest, input)
  {
    var d := Nom.Digit(input);
    if d.Done? {
      assert input[|input| - |d.rest|..] == d.rest;
    }
  }

  /** A field that is read leaves the bytes after its separator. */
  lemma FieldSuffix(input: seq<byte>, sep: byte)
    ensures Field(input, sep).Done? ==> IsSuffix(Field(input, sep).rest, input)
  {
    var n := Number(input, 0x100);
    if n.Done? {
      NumberSuffix(input, 0x100);
      var c := Nom.Char(n.rest, sep);
      if c.Done? {
        assert IsSuffix(c.rest, n.rest);
        SuffixOfSuffix(input, n.rest, c.rest);
      }
    }
  }

  /** `parse_time` consumes a prefix of its input and hands back the rest unchanged. */
  lemma ParseTimeSuffix(input: seq<byte>)
    ensures ParseTime(input).Done? ==> IsSuffix(ParseTime(input).rest, input)
  {
    var h := Field(input, Colon);
    if h.Done? {
      var m := Field(h.rest, Colon);
      if m.Done? {
        var s := Field(m.rest, Comma);
        if s.Done? {
          var ms := Number(s.rest, 0x1_0000);
          if ms.Done? {
            FieldSuffix(input, Colon);
            FieldSuffix(h.rest, Colon);
            FieldSuffix(m.rest, Comma);
            NumberSuffix(s.rest, 0x1_0000);
            SuffixOfSuffix(input, h.rest, m.rest);
            SuffixOfSuffix(input, m.rest, s.rest);
            SuffixOfSuffix(input, s.rest, ms.rest);
          }
        }
      }
    }
  }

  /** The bytes of a time token built from four digit runs: h ':' m ':' s ',' ms. */
  function Token(h: seq<byte>, m: seq<byte>, s: seq<byte>, ms: seq<byte>): seq<byte> {
    h + [Colon] + m + [Colon] + s + [Comma] + ms
  }

  /** A token regrouped as the parser consumes it: one field at a time. */
  lemma TokenRegroup(h: seq<byte>, m: seq<byte>, s: seq<byte>, ms: seq<byte>)
    ensures Token(h, m, s, ms) == h + ([Colon] + (m + ([Colon] + (s + ([Comma] + ms)))))
  {
  }

  /** The same, with more input after the token. */
  lemma TokenThen(h: seq<byte>, m: seq<byte>, s: seq<byte>, ms: seq<byte>, rest: seq<byte>)
    ensures Token(h, m, s, ms) + rest == h + ([Colon] + (m + ([Colon] + (s + ([Comma] + (ms + rest))))))
  {
  }

  /**
   * Each field is a digit run of any width, leading zeros allowed. The token
   * parses to the values the runs denote exactly when hours, minutes and
   * seconds fit in a u8 and milliseconds in a u16; otherwise it is rejected
   * with MapRes. Parsing stops at the first byte that cannot extend the
   * milliseconds, which may be the end of the input.
   */
  lemma ParseTimeToken(h: seq<byte>, m: seq<byte>, s: seq<byte>, ms: seq<byte>, rest: seq<byte>)
    requires IsRun(h) && IsRun(m) && IsRun(s) && IsRun(ms) && StopsRun(rest)
    ensures var r := ParseTime(Token(h, m, s, ms) + rest);
      if Value(h) < 0x100 && Value(m) < 0x100 && Value(s) < 0x100 && Value(ms) < 0x1_0000
      then r == Done(rest, Time(Value(h), Value(m), Value(s), Value(ms)))
      else r == Error(ErrorKind.MapRes)
  {
    TokenThen(h, m, s, ms, rest);
    var t2 := ms + rest;
    var t1 := s + ([Comma] + t2);
    var t0 := m + ([Colon] + t1);
    FieldRun(h, Colon, t0);
    FieldRun(m, Colon, t1);
    FieldRun(s, Comma, t2);
    NumberRun(ms, rest, 0x1_0000);
  }

  /** Serializing a time and parsing it back gives the same time, whatever follows that cannot extend the milliseconds. */
  lemma ParseTimeRoundTrip(t: Time, rest: seq<byte>)
    requires StopsRun(rest)
    ensures ParseTime(DisplayTime(t) + rest) == Done(rest, t)
  {
    DisplayTimeFields(t);
    var h, m, s, ms :=
      PadLeft(Digits(t.hours), 2), PadLeft(Digits(t.minutes), 2),
      PadLeft(Digits(t.seconds), 2), PadLeft(Digits(t.milliseconds), 3);
    ParseTimeToken(h, m, s, ms, rest);
  }

  /**
   * A token that ends right after its seconds is Incomplete, not an Error,
   * and asks for one byte more than it has (the ',' that must follow).
   */
  lemma ParseTimeTruncated(h: seq<byte>, m: seq<byte>, s: seq<byte>)
    requires IsRun(h) && IsRun(m) && IsRun(s)
    requires Value(h) < 0x100 && Value(m) < 0x100 && Value(s) < 0x100
    ensures var input := h + [Colon] + m + [Colon] + s;
      ParseTime(input).Incomplete? && ParseTime(input).needed == Size(|input| + 1)
  {
    var t0 := m + ([Colon] + s);
    var input := h + ([Colon] + t0);
    FieldRun(h, Colon, t0);
    FieldRun(m, Colon, s);
    FieldAtEnd(s, Comma);
    SecondsTruncated(input, t0, s);
    TruncatedRegroup(h, m, s);
  }

  /** Once hours and minutes are read, seconds that end the input leave the whole time one byte short. */
  lemma SecondsTruncated(input: seq<byte>, t0: seq<byte>, s: seq<byte>)
    requires |s| <= |input|
    requires Field(input, Colon).Done? && Field(input, Colon).rest == t0
    requires Field(t0, Colon).Done? && Field(t0, Colon).rest == s
    requires Field(s, Comma).Incomplete? && Field(s, Comma).needed == Size(|s| + 1)
    ensures ParseTime(input).Incomplete? && ParseTime(input).needed == Size(|input| + 1)
  {
    SecondsAtEnd(input, t0, s);
    GrownSize(ParseTime(input), Field(s, Comma), |input|, |s|);
  }

  /**
   * Once hours and minutes are read, a failure at the seconds field is the
   * failure of the whole time, a needed size grown by the bytes before it.
   */
  lemma SecondsAtEnd(input: seq<byte>, t0: seq<byte>, s: seq<byte>)
    requires Field(input, Colon).Done? && Field(input, Colon).rest == t0
    requires Field(t0, Colon).Done? && Field(t0, Colon).rest == s
    requires !Field(s, Comma).Done?
    ensures ParseTime(input) == Fail(Field(s, Comma), |input| - |s|)
  {
  }

  /** A step that asks for one byte more than the rest it was given makes its rule ask for one byte more than its input. */
  lemma GrownSize<T>(r: IResult<T>, f: IResult<nat>, total: nat, left: nat)
    requires left <= total
    requires f.Incomplete? && f.needed == Size(left + 1)
    requires r == Fail(f, total - left)
    ensures r.Incomplete? && r.needed == Size(total + 1)
  {
  }

  lemma TruncatedRegroup(h: seq<byte>, m: seq<byte>, s: seq<byte>)
    ensures h + [Colon] + m + [Colon] + s == h + ([Colon] + (m + ([Colon] + s)))
  {
  }

  /** A byte other than ':' after the hours is a syntax Error of kind Char, not Incomplete. */
  lemma ParseTimeWrongSeparator(h: seq<byte>, x: byte, rest: seq<byte>)
    requires IsRun(h) && Value(h) < 0x100
    requires x != Colon && !IsDigit(x)
    ensures ParseTime(h + [x] + rest) == Error(ErrorKind.Char)
  {
    assert h + [x] + rest == h + ([x] + rest);
    NumberRun(h, [x] + rest, 0x100);
  }

  /** A field that does not start with a digit (such as "01::42") is a syntax Error of kind Digit. */
  lemma ParseTimeMissingMinutes(h: seq<byte>, rest: seq<byte>)
    requires IsRun(h) && Value(h) < 0x100
    requires rest != [] && !IsDigit(rest[0])
    ensures ParseTime(h + [Colon] + rest) == Error(ErrorKind.Digit)
  {
    assert h + [Colon] + rest == h + ([Colon] + rest);
    FieldRun(h, Colon, rest);
  }

  /** Likewise for milliseconds (such as "01:42:05,,123"). */
  lemma ParseTimeMissingMilliseconds(h: seq<byte>, m: seq<byte>, s: seq<byte>, rest: seq<byte>)
    requires IsRun(h) && IsRun(m) && IsRun(s)
    requires Value(h) < 0x100 && Value(m) < 0x100 && Value(s) < 0x100
    requires rest != [] && !IsDigit(rest[0])
    ensures ParseTime(Token(h, m, s, rest)) == Error(ErrorKind.Digit)
  {
    TokenRegroup(h, m, s, rest);
    var t1 := s + ([Comma] + rest);
    var t0 := m + ([Colon] + t1);
    FieldRun(h, Colon, t0);
    FieldRun(m, Colon, t1);
    FieldRun(s, Comma, rest);
  }
}
