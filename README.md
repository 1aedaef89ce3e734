# srt-rs: the SubRip parser and serializer, in Dafny

This project models `srt-rs`, a small Rust library. It reads SubRip (`.srt`)
subtitle files and writes them back out. The library has two parts, and the
model follows both:

- **The grammar** (`src/parser.rs`). A set of nom rules threads an immutable
  byte slice and returns nom's `IResult`:
  - `Done(rest, value)`;
  - `Error(kind)`: a syntax error;
  - `Incomplete(needed)`: the input ran out.

  `parse_time` reads `H:M:S,ms`. `parse_sub` reads one cue, and tags its
  failures by clause. `parse_srt` reads one or more cues with `many1!`.
  `parse_srt_from_slice` maps the outcome onto the library's `ParseError`.
  `From<ErrorKind>` converts nom error kinds.
- **The value types and their `Display` serializers** (`src/lib.rs`): `Time`,
  `SubTitle` and `Srt`.

All of this is pure, so every rule is a Dafny function from `seq<byte>` to a
result datatype. The project is laid out as follows:

- `ascii.dfy`: bytes, the ASCII constants the grammar names, and byte literals.
- `decimal.dfy`: the value of a digit run, Rust's `{}` formatting of an
  unsigned integer, and the `{:0w}` minimum-width zero padding.
- `nom.dfy`: the nom combinators the grammar uses, with the
  `Done`/`Error`/`Incomplete` behaviour of nom 3:
  - `digit`, `char!`, `tag!`/`tag_s!`, `crlf`, `alt!`, `add_return_error!`,
    `take_until_and_consume!` and `many1!`;
  - the way `do_parse!` adds the bytes already consumed to a
    `Needed::Size`;
  - generic lemmas about `many1!`.
- `subtitles.dfy`: `Time`, `SubTitle` and `Srt`, the two serializers, and their
  shape.
- `parser.dfy`: `From<ErrorKind>`, the number fields, `parse_time`, the line
  break, the text clause, `parse_sub`, `parse_srt` and `parse_srt_from_slice`.
- `time_proofs.dfy`, `sub_proofs.dfy`, `document_proofs.dfy`: what each rule
  accepts and rejects, the error tags, and the round trips with the
  serializers.
- `examples.dfy`: the concrete inputs of the repository's unit tests, derived
  from the general lemmas. Long literals are written in pieces, with `+`, at
  the points where the parser splits them.
- `error_reporting.dfy`: the error a caller of `parse_srt_from_slice` actually
  sees. See Findings.

The integer widths are modelled as subset types (`u8`, `u16`, `u32`). A digit
run whose value does not fit its field's type is rejected with `MapRes`, as
`uN::from_str` rejects it. A decoded value is never truncated.

## Model

| member | source | states |
|---|---|---|
| Parser.FromErrorKind | src/parser.rs:50-58 | `Custom(1)`, `Custom(2)` and `Custom(3)` map to `StartTime`, `ArrowBetweenTimes` and `EndTime`, in both directions. Every other kind maps to `Unknown`, never to `Incomplete`. |
| Nom.Digit | src/parser.rs:78 | `digit`: empty input is Incomplete and a non-digit first byte is `Error(Digit)`. Otherwise the result is the maximal non-empty run of digits, followed by a rest that cannot extend it. A run that reaches the end of the input is still Done. |
| Nom.DigitRun | src/parser.rs:78 | A digit run followed by a byte that is not a digit (or by nothing) is read whole, and the rest is left as is. |
| Nom.Char | src/parser.rs:79 | `char!`: empty input is Incomplete with `Size(1)`, the expected byte is Done, and any other byte is `Error(Char)`. |
| Nom.Tag | src/parser.rs:94 | `tag!`/`tag_s!`: Done exactly when the literal is a prefix of the input. The result is Incomplete (`Size(len)`) exactly when the input is a proper prefix of the literal; anything else is `Error(Tag)`. |
| Nom.Crlf | src/parser.rs:92 | `crlf`: Done on a "\r\n" prefix, Incomplete (`Size(2)`) on a proper prefix of it, `Error(CrLf)` otherwise. |
| Nom.TakeUntilAndConsume | src/parser.rs:98 | The input splits into the value, the pattern and the rest. This is the first occurrence of the pattern: it occurs nowhere earlier. An input shorter than the pattern is Incomplete (`Size(len)`). An input without the pattern is `Error(TakeUntilAndConsume)`. |
| Nom.FindFrom | src/parser.rs:98 | The search finds an occurrence at or after the start point and none before it, or reports that there is none. |
| Nom.Many1 | src/parser.rs:63 | `many1!`: an Error exactly when the first item is an Error, and then of kind `Many1`. On success, one or more items, read one after another from the input, and the repetition stops only where no further item can be read. |
| Nom.ManyMore | src/parser.rs:63 | The repetition after the first item never fails. Its result extends what was already read by a chain of items that stops where no item can be read. |
| Nom.ManyMoreStep | src/parser.rs:63 | A step that reads an item and makes progress hands the rest to the next round, with that item appended. |
| Nom.ManyMoreStop | src/parser.rs:63 | The repetition ends with what it has at the end of the input or at the first Error. |
| Nom.ManyMoreChain | src/parser.rs:63 | Proved by induction: the repetition follows any chain of items that the rule reads from its input. |
| Nom.Many1Chain | src/parser.rs:63 | A non-empty chain of items followed by the end of the input or by an Error is exactly what `many1!` returns. |
| Nom.Many1ChainIncomplete | src/parser.rs:63 | A chain of items followed by an Incomplete item makes `many1!` Incomplete. |
| Nom.Fail | src/parser.rs:77-86 | Inside `do_parse!`, a failed step keeps its Error kind. |
| Nom.DigitSpan | src/parser.rs:78 | The length of the longest digit prefix: everything before it is a digit, and the byte after it is not. |
| Nom.SpanOfRun | src/parser.rs:78 | Proved by induction: the digit prefix of a run followed by a non-digit is the run. |
| Decimal.Value | src/parser.rs:78 | `uN::from_str` on ASCII digits: the decimal value of a digit run. |
| Decimal.ValueBound | src/parser.rs:78 | A run of k digits denotes less than 10^k. |
| Decimal.LeadingZeros | src/parser.rs:78 | Leading zeros change nothing: `from_str` accepts them. |
| Decimal.Digits | src/lib.rs:47 | Rust's `{}` for an unsigned integer: a digit run that denotes the number, with no leading zero unless the number is 0. |
| Decimal.DigitsWidth | src/lib.rs:28 | A number below 10^k takes at most k digits. |
| Decimal.Padded | src/lib.rs:28 | `{:0w}` is a minimum width. The field is w bytes when the number fits and wider when it does not. It still denotes the number and ends with its digits. |
| Decimal.PaddedWidth | src/lib.rs:28 | A number below 10^w is written in exactly w bytes. |
| Subtitles.DisplayTimeFields | src/lib.rs:25-34 | A serialized `Time` is four digit runs separated by ':' ':' ','. Each denotes its field, with minimum widths 2, 2, 2 and 3. |
| Subtitles.DisplayTimeLength | src/lib.rs:28 | With h, m, s ≤ 99 and ms ≤ 999 the serialization is exactly 12 bytes, with separators at 2, 5 and 8 and digits everywhere else. |
| Subtitles.DisplayTimeWidens | src/lib.rs:28 | 100 hours and 1000 ms widen their fields ("100:00:00,1000") instead of being truncated. |
| Parser.Number | src/parser.rs:78 | `map_res!(map_res!(digit, from_utf8), uN::from_str)`. The value fits the type and something is consumed. The result is Incomplete exactly on empty input. Errors are `Digit` or `MapRes`. |
| Parser.NumberRun | src/parser.rs:78 | A digit run decodes to its value, or to `Error(MapRes)` when the value overflows the type. |
| Parser.Field | src/parser.rs:78-83 | A u8 field and its separator: the value is below 256, and input is consumed. |
| Parser.ParseTime | src/parser.rs:76-87 | `parse_time` never hands back more input than it was given. That the rest is a suffix of the input is `TimeProofs.ParseTimeSuffix`. |
| Parser.LineBreak | src/parser.rs:92 | `alt!(tag!("\n") \| crlf)`. It is Done exactly on a "\n" or "\r\n" prefix, consuming that line break. It is Incomplete exactly on the empty input or a lone "\r". Otherwise it is `Error(Alt)`. |
| Parser.TextBody | src/parser.rs:98 | The text clause returns the bytes before the first "\n\n", which is consumed. The result is Incomplete exactly when fewer than 2 bytes remain. It is an Error exactly when the input has no "\n\n" or the text is not valid. |
| Parser.ParseSub | src/parser.rs:89-101 | `parse_sub` consumes at least one byte when it succeeds. |
| Parser.ParseSrt | src/parser.rs:61-66 | `parse_srt`, on success, holds one or more entries, read in order by `parse_sub`, and stops where no entry can be read. It is an Error exactly when the first entry is, and its kind is then always `Many1`. |
| Parser.ParseSrtFromSlice | src/parser.rs:68-74 | `parse_srt_from_slice` is `Ok` exactly when `parse_srt` is Done, and then holds at least one entry, in order. The result is `Err(Unknown)` exactly when the first entry is an Error. It is `Err(Incomplete)` exactly when `parse_srt` is Incomplete. It never yields another error. |
| Parser.ParseSrtFromSliceTagged | src/parser.rs:50-58 | Corrected boundary. It equals `ParseSrtFromSlice` on success and on Incomplete. A first entry that fails with `Custom(1)`, `Custom(2)` or `Custom(3)` yields `StartTime`, `ArrowBetweenTimes` or `EndTime`, in both directions. |
| TimeProofs.FieldRun | src/parser.rs:78-79 | A field followed by its separator yields its value when it fits a u8, and `MapRes` otherwise. |
| TimeProofs.FieldAtEnd | src/parser.rs:82-83 | A field that ends the input asks for one more byte than it has. |
| TimeProofs.NumberSuffix | src/parser.rs:78 | A number that is read leaves exactly the bytes after its digits: the rest is a suffix of the input. |
| TimeProofs.FieldSuffix | src/parser.rs:78-83 | A field that is read, with its separator, leaves a suffix of the input. |
| TimeProofs.ParseTimeSuffix | src/parser.rs:76-87 | `parse_time` consumes a prefix of its input and hands back the rest unchanged. |
| TimeProofs.ParseTimeToken | src/parser.rs:76-87 | Any four digit runs of any width, leading zeros allowed, separated by ':' ':' ','. They parse to exactly the values they denote when h, m, s < 256 and ms < 65536, and to `Error(MapRes)` otherwise. Parsing stops where the milliseconds end, which may be the end of the input. |
| TimeProofs.ParseTimeRoundTrip | src/parser.rs:76-87 | For every `Time`, parsing its serialization gives back the same time. Whatever follows is left unread, as long as it cannot extend the milliseconds. |
| TimeProofs.ParseTimeTruncated | src/parser.rs:82-83 | A token that ends after its seconds is Incomplete, not an Error, and asks for exactly input length + 1 bytes. |
| TimeProofs.SecondsAtEnd | src/parser.rs:78-83 | Once hours and minutes are read, a failure in the seconds field is the failure of the whole time. `do_parse!` reports it with the same kind, or with the needed size grown by the bytes consumed before the seconds. |
| TimeProofs.SecondsTruncated | src/parser.rs:78-83 | Once hours and minutes are read, seconds that end the input make the whole time Incomplete, needing input length + 1 bytes. |
| TimeProofs.ParseTimeWrongSeparator | src/parser.rs:79 | A byte other than ':' after the hours is `Error(Char)`, not Incomplete. |
| TimeProofs.ParseTimeMissingMinutes | src/parser.rs:80 | A minutes field that does not start with a digit is `Error(Digit)`. |
| TimeProofs.ParseTimeMissingMilliseconds | src/parser.rs:84 | A milliseconds field that does not start with a digit is `Error(Digit)`. |
| SubTitleProofs.LineBreakThen | src/parser.rs:92 | Both line breaks, "\n" and "\r\n", are accepted and consumed. |
| SubTitleProofs.ArrowThen | src/parser.rs:94 | " --> " is consumed. |
| SubTitleProofs.ParseSubSteps | src/parser.rs:89-101 | Once the index, the line break, both times, the arrow and the second line break have been read, the entry's outcome is that of its text clause. |
| SubTitleProofs.ParseSubHead | src/parser.rs:89-101 | After a well-formed head, with any index and times and either line break, the outcome follows the text clause. It is the entry with that text, or the same Error kind, or Incomplete. |
| SubTitleProofs.TextBodyTerminated | src/parser.rs:97-98 | Valid text is read whole and the "\n\n" after it is consumed. The text must have no "\n\n" inside and no trailing "\n". Single "\n"s inside are kept. |
| SubTitleProofs.ParseSubRoundTrip | src/parser.rs:89-101 | For every entry whose text can be stored, with "\n" or "\r\n" after the index and after the end time, the entry is read back exactly. Parsing stops right after the blank line. |
| SubTitleProofs.DisplayedHead | src/lib.rs:44-53 | `Display for SubTitle` writes the index line, the `start --> end` line, the text and a single "\n". |
| SubTitleProofs.DisplayedEntry | src/lib.rs:47 | The serialization plus one "\n" is a whole entry as the grammar reads it. |
| SubTitleProofs.DisplaySubTitleRoundTrip | src/lib.rs:44-53 | For every storable entry, parsing `serialize(e) + "\n"` reads back the same entry. |
| SubTitleProofs.DisplaySubTitleAlone | src/lib.rs:47 | A serialization on its own does not parse, because the "\n\n" terminator is missing. Non-empty text gives an Error and empty text gives Incomplete. |
| SubTitleProofs.CrLfBlankLineNotTerminator | src/parser.rs:96-98 | "\r\n\r\n" does not end the text: an entry whose text (one line or several, with no blank line) is followed by "\r\n\r\n" is an Error, with either line break in its head. |
| SubTitleProofs.IndexFailure | src/parser.rs:91 | The index clause is not re-tagged. Empty input is Incomplete, and a non-digit first byte is `Error(Digit)`. |
| SubTitleProofs.IndexOverflow | src/parser.rs:91 | An index above the u32 range is `Error(MapRes)`. |
| SubTitleProofs.IndexAlone | src/parser.rs:91-92 | An index with nothing after it is Incomplete. |
| SubTitleProofs.StartTimeFailure | src/parser.rs:93 | After a valid index line, a start time that is an Error is re-tagged `Custom(1)`. One that is Incomplete stays Incomplete. |
| SubTitleProofs.ArrowSteps | src/parser.rs:94 | After a valid start time, an Error in the arrow clause is `Custom(2)`, and Incomplete stays Incomplete. |
| SubTitleProofs.ArrowFailure | src/parser.rs:94 | After a valid start time, bytes that are neither " --> " nor a prefix of it give `Custom(2)`. A proper prefix gives Incomplete. |
| SubTitleProofs.EndTimeSteps | src/parser.rs:95 | After a valid start time and arrow, an Error in the end time is `Custom(3)`, and Incomplete stays Incomplete. |
| SubTitleProofs.EndTimeFailure | src/parser.rs:95 | With a valid start time and arrow, an end time that is an Error gives `Custom(3)`. The start time is the same one that succeeds elsewhere. |
| DocumentProofs.BlockRoundTrip | src/lib.rs:44-53 | A storable entry written by `Display`, plus "\n", reads back. |
| DocumentProofs.ParseSubProgresses | src/parser.rs:63 | `parse_sub` always makes progress, so `many1!` repeats over a shrinking input. |
| DocumentProofs.ConcatChain | src/parser.rs:63 | Proved by induction: a rule that reads back what a writer writes reads a concatenation of such writings one after another, in order. |
| DocumentProofs.DocumentChain | src/parser.rs:63 | `parse_sub` reads a document's entries in order and stops after the last. |
| DocumentProofs.DocumentRoundTrip | src/parser.rs:61-74 | One or more storable entries read back as exactly those entries, in order, through both `parse_srt` and `parse_srt_from_slice`. Trailing bytes that do not start an entry are ignored. |
| DocumentProofs.DocumentThenError | src/parser.rs:68-74 | A document followed by a malformed entry still succeeds with the entries before it. The malformed rest is dropped. |
| DocumentProofs.TruncatedDocument | src/parser.rs:61-74 | A document cut off after the index of a further entry is `Err(Incomplete)`, however many whole entries come before it. |
| DocumentProofs.EmptyDocument | src/parser.rs:71 | An empty buffer is `Err(Incomplete)`, never an empty document. |
| Examples.ParseTimeOk | src/parser.rs:116-121 | "01:42:05,123" parses to `Done(empty, Time{1,42,5,123})`. |
| Examples.ParseTimeLeadingZeros | src/lib.rs:101-106 | "00:01:06,010" parses to `Time{0,1,6,10}`: the padded "010" is 10. |
| Examples.ParseTimeWrongSeparatorExample | src/parser.rs:122 | "01,42:05,123" is `Error(Char)`. |
| Examples.ParseTimeIncompleteExample | src/parser.rs:123 | "01:42:05" is Incomplete with `Size(9)`. |
| Examples.StartTimeText | src/lib.rs:25-34 | `Time{1,42,5,123}` is written "01:42:05,123". |
| Examples.EndTimeText | src/lib.rs:25-34 | `Time{1,42,6,456}` is written "01:42:06,456". |
| Examples.ParseSubOk | src/parser.rs:135-140 | The test entry parses to index 1, 01:42:05,123 to 01:42:06,456, and the text "First line\nSecond line", with nothing left over. |
| Examples.ParseSubStartTimeError | src/parser.rs:141 | "05,,123" in the start time gives `Custom(1)`. |
| Examples.ParseSubArrowError | src/parser.rs:142 | " -a-> " gives `Custom(2)`. |
| Examples.ParseSubEndTimeError | src/parser.rs:143 | "01::42" in the end time gives `Custom(3)`. |
| Examples.SampleDocument | src/lib.rs:72-127 | The three-entry sample document reads back as its three entries, in order. |
| ErrorReporting.RepetitionHidesTag | src/parser.rs:63-70 | When the first entry fails, `From<ErrorKind>` applied to `parse_srt`'s kind is `Unknown`, and so is the as-written result. |
| ErrorReporting.StartTimeError | src/parser.rs:68-74 | A malformed start time in the first entry gives `Unknown` as written and `StartTime` when tagged. |
| ErrorReporting.ArrowError | src/parser.rs:68-74 | A malformed arrow gives `Unknown` as written and `ArrowBetweenTimes` when tagged. |
| ErrorReporting.EndTimeError | src/parser.rs:68-74 | A malformed end time gives `Unknown` as written and `EndTime` when tagged. |
| ErrorReporting.StartTimeErrorExample | src/parser.rs:130 | The `error_1` test input, given as a whole document, is `Err(Unknown)` as written and `Err(StartTime)` when tagged. |

## Left out

- `parse_srt_from_file` (src/lib.rs:55-61) opens and reads a file. That is
  I/O and is not part of this model. So are `ParseError::Io` and
  `From<io::Error>`.
- The `Display`, `description` and `cause` texts of `ParseError`
  (src/parser.rs:21-42) are fixed messages with no logic. They are not
  modelled.
- `str::from_utf8` on the text clause (src/parser.rs:98) is modelled as
  "every byte is ASCII" (`Parser.ValidText`). Text that is valid UTF-8 but not
  ASCII is an Error in the model and is accepted by the library.
  `from_utf8` on digit runs cannot fail, so it is left out there.
- `Needed` arithmetic is kept exact for `char!`, `tag!`, `crlf` and
  `take_until_and_consume!`, and for the sums `do_parse!` forms. The size
  `digit` asks for on empty input is `Needed::Unknown`, taken from nom 3. The
  size is proved as a number for a field at the end of its input
  (`TimeProofs.FieldAtEnd`, `Size(|d| + 1)`) and for every time cut off after
  its seconds (`TimeProofs.ParseTimeTruncated`, `Size(|input| + 1)`, of which
  the tested `Size(9)` for "01:42:05" is one case). The other Incomplete
  lemmas (an entry or a document cut short) state only "Incomplete".
- Nom.Advances: states only that a rule never returns more input than it was
  given, not that the rest is a suffix of the input. Suffix facts are proved
  as separate lemmas where they are needed, for the concrete rules
  (`Digit`, `Char`, `Tag`, `TakeUntilAndConsume` in their own contracts;
  `parse_time` in `TimeProofs.ParseTimeSuffix`).
- Parser.ParseTime: its own contract states only `Advances`. That the rest is
  a suffix of the input is proved beside it, in `TimeProofs.ParseTimeSuffix`,
  to keep the function's contract cheap for the proofs that unfold it.
- Nom.Alt, Nom.AddReturnError, Subtitles.DisplayTime and
  Subtitles.DisplaySubTitle: these carry no contract of their own. Their
  properties are the lemmas above (`LineBreak`, the `*Failure` lemmas,
  `DisplayTimeFields`, `DisplayedHead`).
- The test at src/lib.rs:72-127 reads `assets/test.srt`, which is not part
  of this model. `Examples.SampleDocument` uses the document `Display` writes
  for the expected entries, each followed by "\n". That file is only a
  reconstruction.
- Behaviour the source itself marks as unfinished or lopsided. The model
  keeps the code as written each time:
  - Error reporting. `parse_srt_from_slice` maps every `IResult::Error` to
    `ParseError::Unknown` (src/parser.rs:70), under a TODO that asks for the
    custom kinds instead; `From<ErrorKind>` (src/parser.rs:50-58) has no
    caller. See Findings.
  - Trailing input. `many1!` (src/parser.rs:63) stops at the first entry that
    fails, and `parse_srt_from_slice` drops the rest that `Done` hands back
    (src/parser.rs:72). So a malformed later entry is silently discarded
    (`DocumentProofs.DocumentThenError`).
  - Display. `Display for SubTitle` (src/lib.rs:47) writes a single "\n"
    after the text, but the text clause (src/parser.rs:97) ends only at
    "\n\n". So its output does not parse on its own
    (`DisplaySubTitleAlone`). Documents are built with one "\n" added after
    each entry.
  - CRLF blank lines. The text clause ends only at "\n\n"
    (src/parser.rs:97); the TODO above it (src/parser.rs:96) also lists
    "\r\n\r\n" and the end of input. So an entry whose text ends with a CRLF
    blank line is an Error (`CrLfBlankLineNotTerminator`), and such an entry
    on its own as a document is `Err(Unknown)`
    (`ErrorReporting.RepetitionHidesTag`).

## Findings

| source | as written | input that shows it | evidently intended | confidence | as-written member | corrected member |
|---|---|---|---|---|---|---|
| src/parser.rs:68-74 | every grammar Error of the document becomes `ParseError::Unknown`, so the `From<ErrorKind>` mapping (src/parser.rs:50-58) is never used and the clause tags never reach the caller; `many1!` also replaces the entry's kind by `Many1`, so applying `From` to `parse_srt`'s error would still give `Unknown` | the `error_1` test entry "1\n01:42:05,,123 --> 01:42:06,456\n…" as a whole document | the first entry's tag, converted by `From<ErrorKind>` (`StartTime` here), as the TODO on line 70 says | medium (the TODO marks it unfinished; not executed) | ErrorReporting.StartTimeErrorExample | Parser.ParseSrtFromSliceTagged |
