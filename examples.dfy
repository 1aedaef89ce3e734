/**
 * The concrete inputs of the repository's unit tests, as instances of the
 * general lemmas.
 */
module Examples {
  import opened Ascii
  import opened Decimal
  import opened NomTypes
  import opened Subtitles
  import opened Parser
  import opened TimeProofs
  import opened SubTitleProofs
  import opened DocumentProofs

  /** `parse_time` on "01:42:05,123" reads the whole input. */
  lemma ParseTimeOk()
    ensures ParseTime(Bytes("01:42:05,123")) == Done([], Time(1, 42, 5, 123))
  {
    var token := Token(Bytes("01"), Bytes("42"), Bytes("05"), Bytes("123"));
    OkPieces();
    OkRuns();
    ParseTimeToken(Bytes("01"), Bytes("42"), Bytes("05"), Bytes("123"), []);
    assert token + [] == token;
  }

  lemma OkPieces()
    ensures Bytes("01:42:05,123") == Token(Bytes("01"), Bytes("42"), Bytes("05"), Bytes("123"))
  {
    assert "01:42:05,123" == "01" + ":" + "42" + ":" + "05" + "," + "123";
    TokenText("01", "42", "05", "123");
  }

  /** A time literal written field by field is the token of its fields' bytes. */
  lemma TokenText(h: string, m: string, s: string, ms: string)
    ensures Bytes(h + ":" + m + ":" + s + "," + ms) == Token(Bytes(h), Bytes(m), Bytes(s), Bytes(ms))
  {
    BytesAppend(h, ":");
    BytesAppend(h + ":", m);
    BytesAppend(h + ":" + m, ":");
    BytesAppend(h + ":" + m + ":", s);
    BytesAppend(h + ":" + m + ":" + s, ",");
    BytesAppend(h + ":" + m + ":" + s + ",", ms);
  }

  lemma OkRuns()
    ensures IsRun(Bytes("01")) && Value(Bytes("01")) == 1
    ensures IsRun(Bytes("42")) && Value(Bytes("42")) == 42
    ensures IsRun(Bytes("05")) && Value(Bytes("05")) == 5
    ensures IsRun(Bytes("123")) && Value(Bytes("123")) == 123
  {
  }

  /** A zero-padded "010" millisecond field, as in the sample document, is decoded as 10. */
  lemma ParseTimeLeadingZeros()
    ensures ParseTime(Bytes("00" + ":" + "01" + ":" + "06" + "," + "010")) == Done([], Time(0, 1, 6, 10))
  {
    TokenText("00", "01", "06", "010");
    PaddedRuns();
    ParseTimeToken(Bytes("00"), Bytes("01"), Bytes("06"), Bytes("010"), []);
    EmptyTail(Token(Bytes("00"), Bytes("01"), Bytes("06"), Bytes("010")));
  }

  lemma PaddedRuns()
    ensures IsRun(Bytes("00")) && Value(Bytes("00")) == 0
    ensures IsRun(Bytes("01")) && Value(Bytes("01")) == 1
    ensures IsRun(Bytes("06")) && Value(Bytes("06")) == 6
    ensures IsRun(Bytes("010")) && Value(Bytes("010")) == 10
  {
  }

  /** `parse_time` on "01,42:05,123": a ',' where ':' belongs is a syntax Error. */
  lemma ParseTimeWrongSeparatorExample()
    ensures ParseTime(Bytes("01,42:05,123")) == Error(ErrorKind.Char)
  {
    var h, rest := Bytes("01"), Bytes("42:05,123");
    assert Bytes("01,42:05,123") == h + [Comma] + rest by {
      assert "01,42:05,123" == "01" + "," + "42:05,123";
      BytesAppend("01", ",");
      BytesAppend("01,", "42:05,123");
    }
    assert IsRun(h) && Value(h) < 0x100;
    ParseTimeWrongSeparator(h, Comma, rest);
  }

  /** `parse_time` on "01:42:05" asks for one byte more than its 8. */
  lemma ParseTimeIncompleteExample()
    ensures ParseTime(Bytes("01:42:05")).Incomplete? && ParseTime(Bytes("01:42:05")).needed == Size(9)
  {
    TruncatedPieces();
    ParseTimeTruncated(Bytes("01"), Bytes("42"), Bytes("05"));
  }

  lemma TruncatedPieces()
    ensures Bytes("01:42:05") == Bytes("01") + [Colon] + Bytes("42") + [Colon] + Bytes("05")
    ensures IsRun(Bytes("01")) && Value(Bytes("01")) == 1
    ensures IsRun(Bytes("42")) && Value(Bytes("42")) == 42
    ensures IsRun(Bytes("05")) && Value(Bytes("05")) == 5
  {
    assert "01:42:05" == "01" + ":" + "42" + ":" + "05";
    BytesAppend("01", ":");
    BytesAppend("01:", "42");
    BytesAppend("01:42", ":");
    BytesAppend("01:42:", "05");
  }

  /** The serialized start time of the tests: "01:42:05,123". */
  lemma StartTimeText()
    ensures DisplayTime(Time(1, 42, 5, 123)) == Bytes("01:42:05,123")
  {
    DisplayTimeFields(Time(1, 42, 5, 123));
    assert PadLeft(Digits(1), 2) == Bytes("01");
    assert PadLeft(Digits(42), 2) == Bytes("42");
    assert PadLeft(Digits(5), 2) == Bytes("05");
    assert PadLeft(Digits(123), 3) == Bytes("123");
    OkPieces();
  }

  /** The serialized end time of the tests: "01:42:06,456". */
  lemma EndTimeText()
    ensures DisplayTime(Time(1, 42, 6, 456)) == Bytes("01:42:06,456")
  {
    DisplayTimeFields(Time(1, 42, 6, 456));
    assert PadLeft(Digits(1), 2) == Bytes("01");
    assert PadLeft(Digits(42), 2) == Bytes("42");
    assert PadLeft(Digits(6), 2) == Bytes("06");
    assert PadLeft(Digits(456), 3) == Bytes("456");
    EndPieces();
  }

  lemma EndPieces()
    ensures Bytes("01:42:06,456") == Token(Bytes("01"), Bytes("42"), Bytes("06"), Bytes("456"))
  {
    assert "01:42:06,456" == "01" + ":" + "42" + ":" + "06" + "," + "456";
    TokenText("01", "42", "06", "456");
  }

  /** The lines of an entry literal, regrouped as `parse_sub` reads them. */
  lemma EntryText(i: string, st: string, en: string, text: string)
    ensures Bytes(i + "\n" + st + " --> " + en + "\n" + text + "\n\n")
      == Bytes(i) + [NL] + Bytes(st) + Arrow + Bytes(en) + [NL] + Bytes(text) + BlankLine
  {
    assert Bytes("\n") == [NL];
    assert Bytes(" --> ") == Arrow;
    assert Bytes("\n\n") == BlankLine;
    BytesAppend(i, "\n");
    BytesAppend(i + "\n", st);
    BytesAppend(i + "\n" + st, " --> ");
    BytesAppend(i + "\n" + st + " --> ", en);
    BytesAppend(i + "\n" + st + " --> " + en, "\n");
    BytesAppend(i + "\n" + st + " --> " + en + "\n", text);
    BytesAppend(i + "\n" + st + " --> " + en + "\n" + text, "\n\n");
  }

  /** The entry of the `parse_sub` tests. */
  function TestEntry(): SubTitle {
    SubTitle(1, Time(1, 42, 5, 123), Time(1, 42, 6, 456), Bytes("First line\nSecond line"))
  }

  lemma TestEntryText()
    ensures Bytes("1" + "\n" + "01:42:05,123" + " --> " + "01:42:06,456" + "\n" + "First line\nSecond line" + "\n\n")
      == Entry(TestEntry(), [NL], [NL])
  {
    EntryText("1", "01:42:05,123", "01:42:06,456", "First line\nSecond line");
    StartTimeText();
    EndTimeText();
    assert Digits(1) == Bytes("1");
  }

  /** `parse_sub` reads the entry of its test and nothing is left over. */
  lemma ParseSubOk()
    ensures ParseSub(Bytes("1" + "\n" + "01:42:05,123" + " --> " + "01:42:06,456" + "\n" + "First line\nSecond line" + "\n\n"))
      == Done([], SubTitle(1, Time(1, 42, 5, 123), Time(1, 42, 6, 456), Bytes("First line\nSecond line")))
  {
    TestEntryText();
    TestEntryRead();
  }

  lemma TestEntryRead()
    ensures ParseSub(Entry(TestEntry(), [NL], [NL])) == Done([], TestEntry())
  {
    var e := TestEntry();
    assert ValidText(e.text) && SingleNewlines(e.text) by {
      TestTextStorable();
    }
    ParseSubRoundTrip(e, [NL], [NL], []);
    assert Entry(e, [NL], [NL]) + [] == Entry(e, [NL], [NL]);
  }

  lemma TestTextStorable()
    ensures ValidText(Bytes("First line\nSecond line")) && SingleNewlines(Bytes("First line\nSecond line"))
  {
    LineText("First line", "Second line");
  }

  /** Two lines of ASCII text joined by one "\n" can be stored. */
  lemma LineText(a: string, b: string)
    requires forall k :: 0 <= k < |a| ==> ' ' <= a[k] <= '~'
    requires forall k :: 0 <= k < |b| ==> ' ' <= b[k] <= '~'
    requires b != ""
    ensures ValidText(Bytes(a + "\n" + b)) && SingleNewlines(Bytes(a + "\n" + b))
  {
    var t := Bytes(a + "\n" + b);
    forall k | 0 <= k < |t| && t[k] == NL
      ensures k + 1 < |t| && t[k + 1] != NL
    {
      assert k == |a|;
      assert (a + "\n" + b)[k + 1] == b[0];
    }
  }

  /** An index line followed by the rest of an entry, regrouped as `parse_sub` reads it. */
  lemma IndexLine(i: string, t: string)
    ensures Bytes(i + "\n" + t) == Bytes(i) + ([NL] + Bytes(t))
  {
    assert Bytes("\n") == [NL];
    BytesAppend(i, "\n");
    BytesAppend(i + "\n", t);
  }

  lemma IndexOne()
    ensures IsRun(Bytes("1")) && Value(Bytes("1")) == 1
  {
  }

  /** A doubled ',' before the milliseconds of the start time fails with `Custom(1)`. */
  lemma ParseSubStartTimeError()
    ensures ParseSub(Bytes("1" + "\n" + ("01" + ":" + "42" + ":" + "05" + "," + (",123" + " --> 01:42:06,456\nFirst line\nSecond line\n\n"))))
      == Error(ErrorKind.Custom(1))
  {
    var ms := ",123" + " --> 01:42:06,456\nFirst line\nSecond line\n\n";
    var t := "01" + ":" + "42" + ":" + "05" + "," + ms;
    IndexLine("1", t);
    IndexOne();
    MissingMilliseconds(ms);
    StartTimeFailure(Bytes("1"), [NL], Bytes(t));
  }

  lemma MissingMilliseconds(ms: string)
    requires ms != "" && ms[0] == ','
    ensures ParseTime(Bytes("01" + ":" + "42" + ":" + "05" + "," + ms)) == Error(ErrorKind.Digit)
  {
    TokenText("01", "42", "05", ms);
    OkRuns();
    ParseTimeMissingMilliseconds(Bytes("01"), Bytes("42"), Bytes("05"), Bytes(ms));
  }

  /** " -a-> " where " --> " belongs fails with `Custom(2)`. */
  lemma ParseSubArrowError()
    ensures ParseSub(Bytes("1" + "\n" + ("01:42:05,123" + " -a-> 01:42:06,456\nFirst line\nSecond line\n\n")))
      == Error(ErrorKind.Custom(2))
  {
    var x := " -a-> 01:42:06,456\nFirst line\nSecond line\n\n";
    IndexLine("1", "01:42:05,123" + x);
    IndexOne();
    BytesAppend("01:42:05,123", x);
    StartTimeText();
    assert x[0] == ' ' && x[2] == 'a';
    assert Bytes(x)[2] != Arrow[2];
    ArrowFailure(Bytes("1"), [NL], Time(1, 42, 5, 123), Bytes(x));
  }

  /** An empty minutes field in the end time ("01::42") fails with `Custom(3)`. */
  lemma ParseSubEndTimeError()
    ensures ParseSub(Bytes("1" + "\n" + ("01:42:05,123" + (" --> " + ("01" + ":" + ":42:06,456\nFirst line\nSecond line\n\n")))))
      == Error(ErrorKind.Custom(3))
  {
    var y := ":42:06,456\nFirst line\nSecond line\n\n";
    var t := "01" + ":" + y;
    IndexLine("1", "01:42:05,123" + (" --> " + t));
    IndexOne();
    BytesAppend("01:42:05,123", " --> " + t);
    BytesAppend(" --> ", t);
    assert Bytes(" --> ") == Arrow;
    StartTimeText();
    assert ParseTime(Bytes(t)) == Error(ErrorKind.Digit) by {
      BytesAppend("01", ":");
      BytesAppend("01" + ":", y);
      assert Bytes(":") == [Colon];
      OkRuns();
      assert Bytes(y)[0] == Colon;
      ParseTimeMissingMinutes(Bytes("01"), Bytes(y));
    }
    EndTimeFailure(Bytes("1"), [NL], Time(1, 42, 5, 123), Bytes(t));
  }

  /** One line of ASCII text can be stored. */
  lemma OneLineText(a: string)
    requires forall k :: 0 <= k < |a| ==> ' ' <= a[k] <= '~'
    ensures ValidText(Bytes(a)) && SingleNewlines(Bytes(a))
  {
  }

  /** The three entries of the repository's sample document. */
  function SampleEntries(): seq<SubTitle> {
    [ SubTitle(1, Time(0, 0, 1, 123), Time(0, 0, 3, 456), Bytes("First line")),
      SubTitle(2, Time(0, 1, 5, 0), Time(0, 1, 6, 10), Bytes("Second line," + "\n" + "and third line.")),
      SubTitle(3, Time(1, 42, 5, 123), Time(1, 42, 6, 456), Bytes("This is the end!")) ]
  }

  /** The sample document, written entry by entry, reads back as its three entries. */
  lemma SampleDocument()
    ensures ParseSrtFromSlice(Document(SampleEntries())) == Ok(Srt(SampleEntries()))
  {
    SampleStorable();
    DocumentRoundTrip(SampleEntries(), []);
    EmptyTail(Document(SampleEntries()));
  }

  lemma SampleStorable()
    ensures forall i :: 0 <= i < |SampleEntries()| ==> Storable(SampleEntries()[i])
  {
    OneLineText("First line");
    LineText("Second line,", "and third line.");
    OneLineText("This is the end!");
  }

  lemma EmptyTail(s: seq<byte>)
    ensures s + [] == s
  {
  }
}
