/**
 * What `parse_sub` reads: the clause-by-clause error tags, the line breaks
 * it accepts, the text terminator, and the round trip with
 * `Display for SubTitle`.
 */
module SubTitleProofs {
  import opened Ascii
  import opened Decimal
  import opened NomTypes
  import Nom
  import opened Subtitles
  import opened Parser
  import opened TimeProofs

  /** The two line breaks the grammar accepts after the index and after the end time. */
  predicate IsLineBreak(lb: seq<byte>) {
    lb == [NL] || lb == [CR, NL]
  }

  /**
   * Text that can be stored and read back: it holds no blank line ("\n\n")
   * and does not end with a line break, so the first "\n\n" after it is the
   * terminator.
   */
  predicate SingleNewlines(text: seq<byte>) {
    forall k :: 0 <= k < |text| && text[k] == NL ==> k + 1 < |text| && text[k + 1] != NL
  }

  /** Either line break is consumed whole, whatever follows it. */
  lemma LineBreakThen(lb: seq<byte>, rest: seq<byte>)
    requires IsLineBreak(lb)
    ensures LineBreak(lb + rest).Done? && LineBreak(lb + rest).rest == rest
  {
    var input := lb + rest;
    if lb == [NL] {
      assert [NL] <= input;
      assert input[1..] == rest;
    } else {
      assert [CR, NL] <= input;
      assert !([NL] <= input) by { assert input[0] == CR; }
      assert input[2..] == rest;
    }
  }

  lemma ArrowThen(rest: seq<byte>)
    ensures Nom.Tag(Arrow + rest, Arrow).Done? && Nom.Tag(Arrow + rest, Arrow).rest == rest
  {
    assert Arrow <= Arrow + rest;
    assert (Arrow + rest)[|Arrow|..] == rest;
  }

  /**
   * `parse_sub` once its six leading clauses have matched: the outcome is the
   * outcome of the text clause, an Error keeping its kind and an Incomplete
   * staying Incomplete.
   */
  lemma ParseSubSteps(input: seq<byte>, i1: seq<byte>, i2: seq<byte>, i3: seq<byte>, i4: seq<byte>,
                      i5: seq<byte>, i6: seq<byte>, idx: nat, st: Time, en: Time)
    requires Number(input, 0x1_0000_0000) == Done(i1, idx)
    requires LineBreak(i1).Done? && LineBreak(i1).rest == i2
    requires ParseTime(i2) == Done(i3, st)
    requires Nom.Tag(i3, Arrow).Done? && Nom.Tag(i3, Arrow).rest == i4
    requires ParseTime(i4) == Done(i5, en)
    requires LineBreak(i5).Done? && LineBreak(i5).rest == i6
    ensures idx < 0x1_0000_0000
    ensures var t := TextBody(i6);
      && (t.Done? ==> ParseSub(input) == Done(t.rest, SubTitle(idx, st, en, t.value)))
      && (t.Error? ==> ParseSub(input).Error? && ParseSub(input).kind == t.kind)
      && (t.Incomplete? ==> ParseSub(input).Incomplete?)
  {
  }

  /**
   * The index line and the timing line of an entry, as `Display for SubTitle`
   * writes them but with either line break after each.
   */
  function Head(e: SubTitle, lb1: seq<byte>, lb2: seq<byte>): seq<byte> {
    Digits(e.index) + lb1 + DisplayTime(e.startTime) + Arrow + DisplayTime(e.endTime) + lb2
  }

  lemma HeadThen(e: SubTitle, lb1: seq<byte>, lb2: seq<byte>, body: seq<byte>)
    ensures Head(e, lb1, lb2) + body
      == Digits(e.index) + (lb1 + (DisplayTime(e.startTime) + (Arrow + (DisplayTime(e.endTime) + (lb2 + body)))))
  {
    Regroup(Digits(e.index), lb1, DisplayTime(e.startTime), Arrow, DisplayTime(e.endTime), lb2, body);
  }

  lemma Regroup(a: seq<byte>, b: seq<byte>, c: seq<byte>, d: seq<byte>, e: seq<byte>, f: seq<byte>, g: seq<byte>)
    ensures a + b + c + d + e + f + g == a + (b + (c + (d + (e + (f + g)))))
  {
  }

  /**
   * After a well-formed head (any index and times, either line break), the
   * entry's outcome is that of its text clause: the entry with the text read,
   * or the same Error, or Incomplete.
   */
  lemma ParseSubHead(e: SubTitle, lb1: seq<byte>, lb2: seq<byte>, body: seq<byte>)
    requires IsLineBreak(lb1) && IsLineBreak(lb2)
    ensures var r, t := ParseSub(Head(e, lb1, lb2) + body), TextBody(body);
      && (t.Done? ==> r == Done(t.rest, e.(text := t.value)))
      && (t.Error? ==> r.Error? && r.kind == t.kind)
      && (t.Incomplete? ==> r.Incomplete?)
  {
    var i5 := lb2 + body;
    var i4 := DisplayTime(e.endTime) + i5;
    var i3 := Arrow + i4;
    var i2 := DisplayTime(e.startTime) + i3;
    var i1 := lb1 + i2;
    var input := Digits(e.index) + i1;
    var t := TextBody(body);
    assert && (t.Done? ==> ParseSub(input) == Done(t.rest, e.(text := t.value)))
           && (t.Error? ==> ParseSub(input).Error? && ParseSub(input).kind == t.kind)
           && (t.Incomplete? ==> ParseSub(input).Incomplete?) by {
      NumberRun(Digits(e.index), i1, 0x1_0000_0000);
      LineBreakThen(lb1, i2);
      ParseTimeRoundTrip(e.startTime, i3);
      ArrowThen(i4);
      ParseTimeRoundTrip(e.endTime, i5);
      LineBreakThen(lb2, body);
      ParseSubSteps(input, i1, i2, i3, i4, i5, body, e.index, e.startTime, e.endTime);
    }
    HeadThen(e, lb1, lb2, body);
  }

  /**
   * The text clause stops at the first "\n\n": text without a blank line and
   * without a trailing line break is read whole, and the terminator is
   * consumed and not part of it.
   */
  lemma TextBodyTerminated(text: seq<byte>, rest: seq<byte>)
    requires ValidText(text) && SingleNewlines(text)
    ensures TextBody(text + (BlankLine + rest)) == Done(rest, text)
  {
    var input := text + (BlankLine + rest);
    assert Nom.OccursAt(input, BlankLine, |text|) by {
      assert input[|text|..|text| + 2] == BlankLine;
    }
    forall k: nat | k < |text|
      ensures !Nom.OccursAt(input, BlankLine, k)
    {
      if text[k] == NL {
        assert input[k + 1] == text[k + 1];
        assert input[k..k + 2][1] == input[k + 1];
      } else {
        assert input[k..k + 2][0] == text[k];
      }
    }
    var r := Nom.TakeUntilAndConsume(input, BlankLine);
    assert r.Done?;
    assert |r.value| == |text|;
    assert r.value == text && r.rest == rest by {
      assert input == text + BlankLine + rest;
    }
  }

  /** A whole entry: its head, its text and the blank line that ends it. */
  function Entry(e: SubTitle, lb1: seq<byte>, lb2: seq<byte>): seq<byte> {
    Head(e, lb1, lb2) + e.text + BlankLine
  }

  /**
   * Every entry whose text can be stored is read back exactly, with "\n" or
   * "\r\n" after the index and after the end time, and parsing stops right
   * after its blank line.
   */
  lemma ParseSubRoundTrip(e: SubTitle, lb1: seq<byte>, lb2: seq<byte>, rest: seq<byte>)
    requires IsLineBreak(lb1) && IsLineBreak(lb2)
    requires ValidText(e.text) && SingleNewlines(e.text)
    ensures ParseSub(Entry(e, lb1, lb2) + rest) == Done(rest, e)
  {
    var body := e.text + (BlankLine + rest);
    assert ParseSub(Head(e, lb1, lb2) + body) == Done(rest, e) by {
      ParseSubHead(e, lb1, lb2, body);
      TextBodyTerminated(e.text, rest);
    }
    Regroup4(Head(e, lb1, lb2), e.text, BlankLine, rest);
  }

  lemma Regroup4(a: seq<byte>, b: seq<byte>, c: seq<byte>, d: seq<byte>)
    ensures a + b + c + d == a + (b + (c + d))
  {
  }

  /** `Display for SubTitle` is an entry head with "\n" line breaks, then the text and one "\n". */
  lemma DisplayedHead(e: SubTitle)
    ensures DisplaySubTitle(e) == Head(e, [NL], [NL]) + (e.text + [NL])
  {
  }

  /** With one more "\n" it is the whole entry. */
  lemma DisplayedEntry(e: SubTitle)
    ensures DisplaySubTitle(e) + [NL] == Entry(e, [NL], [NL])
  {
  }

  /**
   * Serializing an entry and adding the one "\n" that `Display` leaves out
   * reads back the same entry.
   */
  lemma DisplaySubTitleRoundTrip(e: SubTitle, rest: seq<byte>)
    requires ValidText(e.text) && SingleNewlines(e.text)
    ensures ParseSub(DisplaySubTitle(e) + [NL] + rest) == Done(rest, e)
  {
    ParseSubRoundTrip(e, [NL], [NL], rest);
    DisplayedEntry(e);
  }

  /**
   * A serialized entry on its own does not parse: `Display` writes a single
   * "\n" after the text, so the "\n\n" terminator is missing. Non-empty
   * text gives an Error, empty text an Incomplete.
   */
  lemma DisplaySubTitleAlone(e: SubTitle)
    requires SingleNewlines(e.text)
    ensures e.text != [] ==> ParseSub(DisplaySubTitle(e)).Error?
    ensures e.text == [] ==> ParseSub(DisplaySubTitle(e)).Incomplete?
  {
    var body := e.text + [NL];
    forall k: nat
      ensures !Nom.OccursAt(body, BlankLine, k)
    {
      if k + 2 <= |body| {
        assert body[k..k + 2][0] == body[k] == e.text[k];
        assert body[k..k + 2][1] == body[k + 1];
      }
    }
    ParseSubHead(e, [NL], [NL], body);
    DisplayedHead(e);
  }

  /**
   * "\r\n\r\n" does not end an entry's text: only "\n\n" does, so a
   * text of one or more lines followed by a CRLF blank line is an Error.
   */
  lemma CrLfBlankLineNotTerminator(e: SubTitle, lb1: seq<byte>, lb2: seq<byte>)
    requires IsLineBreak(lb1) && IsLineBreak(lb2)
    requires SingleNewlines(e.text)
    ensures ParseSub(Head(e, lb1, lb2) + e.text + [CR, NL, CR, NL]).Error?
  {
    var body := e.text + [CR, NL, CR, NL];
    forall k: nat
      ensures !Nom.OccursAt(body, BlankLine, k)
    {
      if k + 2 <= |body| {
        assert body[k..k + 2][0] == body[k];
        assert body[k..k + 2][1] == body[k + 1];
        if k < |e.text| {
          assert body[k] == e.text[k];
          if k + 1 < |e.text| {
            assert body[k + 1] == e.text[k + 1];
          }
        }
      }
    }
    assert Head(e, lb1, lb2) + e.text + [CR, NL, CR, NL] == Head(e, lb1, lb2) + body;
    ParseSubHead(e, lb1, lb2, body);
  }

  /**
   * The index clause is not re-tagged: no index at all is an Error of kind
   * Digit, an index above u32 an Error of kind MapRes, and an empty input
   * is Incomplete.
   */
  lemma IndexFailure(input: seq<byte>)
    ensures input == [] ==> ParseSub(input).Incomplete?
    ensures input != [] && !IsDigit(input[0]) ==> ParseSub(input) == Error(ErrorKind.Digit)
  {
  }

  lemma IndexOverflow(d: seq<byte>, rest: seq<byte>)
    requires IsRun(d) && Value(d) >= 0x1_0000_0000 && StopsRun(rest)
    ensures ParseSub(d + rest) == Error(ErrorKind.MapRes)
  {
    NumberRun(d, rest, 0x1_0000_0000);
  }

  /** An index with nothing after it is Incomplete: the line break is still to come. */
  lemma IndexAlone(d: seq<byte>)
    requires IsRun(d) && Value(d) < 0x1_0000_0000
    ensures ParseSub(d).Incomplete?
  {
    NumberRun(d, [], 0x1_0000_0000);
    assert d + [] == d;
  }

  /**
   * After a valid index line, a start time that fails with an Error is
   * reported as Custom(1); one that runs out of input stays Incomplete.
   */
  lemma StartTimeFailure(d: seq<byte>, lb: seq<byte>, t: seq<byte>)
    requires IsRun(d) && Value(d) < 0x1_0000_0000 && IsLineBreak(lb)
    ensures ParseTime(t).Error? ==> ParseSub(d + (lb + t)) == Error(ErrorKind.Custom(1))
    ensures ParseTime(t).Incomplete? ==> ParseSub(d + (lb + t)).Incomplete?
  {
    NumberRun(d, lb + t, 0x1_0000_0000);
    LineBreakThen(lb, t);
  }

  /** `parse_sub` once its index, line break and start time have matched and the arrow does not. */
  lemma ArrowSteps(input: seq<byte>, i1: seq<byte>, i2: seq<byte>, i3: seq<byte>, idx: nat, st: Time)
    requires Number(input, 0x1_0000_0000) == Done(i1, idx)
    requires LineBreak(i1).Done? && LineBreak(i1).rest == i2
    requires ParseTime(i2) == Done(i3, st)
    ensures Nom.Tag(i3, Arrow).Error? ==> ParseSub(input) == Error(ErrorKind.Custom(2))
    ensures Nom.Tag(i3, Arrow).Incomplete? ==> ParseSub(input).Incomplete?
  {
  }

  /**
   * After a valid start time, anything but " --> " is reported as Custom(2),
   * unless the input ends inside the arrow, which is Incomplete.
   */
  lemma ArrowFailure(d: seq<byte>, lb: seq<byte>, st: Time, x: seq<byte>)
    requires IsRun(d) && Value(d) < 0x1_0000_0000 && IsLineBreak(lb)
    requires StopsRun(x) && !(Arrow <= x)
    ensures !(x < Arrow) ==> ParseSub(d + (lb + (DisplayTime(st) + x))) == Error(ErrorKind.Custom(2))
    ensures x < Arrow ==> ParseSub(d + (lb + (DisplayTime(st) + x))).Incomplete?
  {
    var i2 := DisplayTime(st) + x;
    var input := d + (lb + i2);
    assert Nom.Tag(x, Arrow).Error? <==> !(x < Arrow);
    NumberRun(d, lb + i2, 0x1_0000_0000);
    LineBreakThen(lb, i2);
    ParseTimeRoundTrip(st, x);
    ArrowSteps(input, lb + i2, i2, x, Value(d), st);
  }

  /** `parse_sub` once its index, line break, start time and arrow have matched. */
  lemma EndTimeSteps(input: seq<byte>, i1: seq<byte>, i2: seq<byte>, i3: seq<byte>, i4: seq<byte>, idx: nat, st: Time)
    requires Number(input, 0x1_0000_0000) == Done(i1, idx)
    requires LineBreak(i1).Done? && LineBreak(i1).rest == i2
    requires ParseTime(i2) == Done(i3, st)
    requires Nom.Tag(i3, Arrow).Done? && Nom.Tag(i3, Arrow).rest == i4
    ensures ParseTime(i4).Error? ==> ParseSub(input) == Error(ErrorKind.Custom(3))
    ensures ParseTime(i4).Incomplete? ==> ParseSub(input).Incomplete?
  {
  }

  /**
   * After a valid start time and arrow, an end time that fails with an Error
   * is reported as Custom(3), independently of the start time; one that runs
   * out of input stays Incomplete.
   */
  lemma EndTimeFailure(d: seq<byte>, lb: seq<byte>, st: Time, t: seq<byte>)
    requires IsRun(d) && Value(d) < 0x1_0000_0000 && IsLineBreak(lb)
    ensures ParseTime(t).Error? ==> ParseSub(d + (lb + (DisplayTime(st) + (Arrow + t)))) == Error(ErrorKind.Custom(3))
    ensures ParseTime(t).Incomplete? ==> ParseSub(d + (lb + (DisplayTime(st) + (Arrow + t)))).Incomplete?
  {
    var i3 := Arrow + t;
    var i2 := DisplayTime(st) + i3;
    NumberRun(d, lb + i2, 0x1_0000_0000);
    LineBreakThen(lb, i2);
    ParseTimeRoundTrip(st, i3);
    ArrowThen(t);
    EndTimeSteps(d + (lb + i2), lb + i2, i2, i3, t, Value(d), st);
  }
}
