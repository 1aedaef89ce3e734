/**
 * What nom's rules return: `Done(rest, value)` with the input not consumed,
 * `Error(kind)` when the bytes do not match, or `Incomplete(needed)` when the
 * slice ends before the rule can decide; errors are nom's simple errors, a
 * bare `ErrorKind`.
 */
module NomTypes {
  import opened Ascii

  datatype Option<+T> = None | Some(value: T)

  datatype Needed = Unknown | Size(size: nat)

  /** The error kinds the grammar can produce, named as in nom. */
  datatype ErrorKind =
    | Custom(code: nat)
    | Tag
    | MapRes
    | Alt
    | Digit
    | Char
    | CrLf
    | Many1
    | TakeUntilAndConsume

  datatype IResult<+T> =
    | Done(rest: seq<byte>, value: T)
    | Error(kind: ErrorKind)
    | Incomplete(needed: Needed)

  /** A rule that succeeds never hands back more input than it was given. */
  predicate Advances<T>(input: seq<byte>, r: IResult<T>) {
    r.Done? ==> |r.rest| <= |input|
  }

  /** s is what is left of t once some bytes at its front are consumed. */
  predicate IsSuffix(s: seq<byte>, t: seq<byte>) {
    |s| <= |t| && s == t[|t| - |s|..]
  }

  /** What is left of what is left of t is what is left of t. */
  lemma SuffixOfSuffix(a: seq<byte>, b: seq<byte>, c: seq<byte>)
    requires IsSuffix(b, a) && IsSuffix(c, b)
    ensures IsSuffix(c, a)
  {
    assert a[|a| - |b|..][|b| - |c|..] == a[|a| - |c|..];
  }

  /**
   * How `do_parse!` reports a step that failed `consumed` bytes into its rule:
   * the Error unchanged, a known `Needed::Size` grown by `consumed`.
   */
  function Fail<T, U>(r: IResult<T>, consumed: nat): (f: IResult<U>)
    requires !r.Done?
    ensures f.Error? == r.Error? && (r.Error? ==> f.kind == r.kind)
    ensures f.Incomplete? == r.Incomplete?
    ensures r.Incomplete? && r.needed.Size? ==> f.needed == Size(consumed + r.needed.size)
  {
    match r
    case Error(k) => Error(k)
    case Incomplete(Unknown) => Incomplete(Unknown)
    case Incomplete(Size(n)) => Incomplete(Size(consumed + n))
  }
}

/**
 * The nom combinators the SubRip grammar is built from, over a byte slice.
 * Their names are those of the error kinds, so users call them qualified
 * (`Nom.Digit`) and write the kinds as `ErrorKind.Digit`.
 */
module Nom {
  import opened Ascii
  import opened NomTypes

  /** The length of the run of digits at the front of s. */
  function DigitSpan(s: seq<byte>): (n: nat)
    ensures n <= |s| && AllDigits(s[..n]) && StopsRun(s[n..])
  {
    if s == [] || !IsDigit(s[0]) then 0
    else
      var n := 1 + DigitSpan(s[1..]);
      assert s[..n] == [s[0]] + s[1..][..n - 1];
      n
  }

  /**
   * nom `digit`: the longest run of ASCII digits at the front of the input.
   * An empty input is Incomplete, a non-digit first byte an Error, and a run
   * that reaches the end of the input is still Done.
   */
  function Digit(input: seq<byte>): (r: IResult<seq<byte>>)
    ensures Advances(input, r)
    ensures r.Incomplete? <==> input == []
    ensures r.Incomplete? ==> r.needed == Unknown
    ensures r.Error? <==> input != [] && !IsDigit(input[0])
    ensures r.Error? ==> r.kind == ErrorKind.Digit
    ensures r.Done? ==> IsRun(r.value) && StopsRun(r.rest) && input == r.value + r.rest
  {
    if input == [] then Incomplete(Unknown)
    else
      var n := DigitSpan(input);
      if n == 0 then Error(ErrorKind.Digit)
      else
        assert input == input[..n] + input[n..];
        Done(input[n..], input[..n])
  }

  lemma {:induction false} SpanOfRun(d: seq<byte>, rest: seq<byte>)
    requires AllDigits(d) && StopsRun(rest)
    ensures DigitSpan(d + rest) == |d|
  {
    if d != [] {
      assert (d + rest)[1..] == d[1..] + rest;
      SpanOfRun(d[1..], rest);
    } else {
      assert d + rest == rest;
    }
  }

  /** A digit run followed by something that cannot extend it is exactly what `digit` takes. */
  lemma DigitRun(d: seq<byte>, rest: seq<byte>)
    requires IsRun(d) && StopsRun(rest)
    ensures Digit(d + rest) == Done(rest, d)
  {
    SpanOfRun(d, rest);
    assert (d + rest)[..|d|] == d && (d + rest)[|d|..] == rest;
  }

  /** nom `char!(c)`: one byte equal to c. */
  function Char(input: seq<byte>, c: byte): (r: IResult<byte>)
    ensures Advances(input, r)
    ensures r.Incomplete? <==> input == []
    ensures r.Incomplete? ==> r.needed == Size(1)
    ensures r.Done? <==> input != [] && input[0] == c
    ensures r.Done? ==> r == Done(input[1..], c)
    ensures r.Error? ==> r.kind == ErrorKind.Char
  {
    if input == [] then Incomplete(Size(1))
    else if input[0] == c then Done(input[1..], c)
    else Error(ErrorKind.Char)
  }

  /**
   * nom `tag!(lit)` (also reached through `tag_s!`): the input starts with lit.
   * An input that is a proper prefix of lit is Incomplete, any mismatch an Error.
   */
  function Tag(input: seq<byte>, lit: seq<byte>): (r: IResult<seq<byte>>)
    ensures Advances(input, r)
    ensures r.Done? <==> lit <= input
    ensures r.Done? ==> r == Done(input[|lit|..], lit)
    ensures r.Incomplete? <==> input < lit
    ensures r.Incomplete? ==> r.needed == Size(|lit|)
    ensures r.Error? ==> r.kind == ErrorKind.Tag
  {
    var m := if |input| < |lit| then |input| else |lit|;
    if input[..m] != lit[..m] then Error(ErrorKind.Tag)
    else if m < |lit| then Incomplete(Size(|lit|))
    else Done(input[|lit|..], lit)
  }

  /** nom `crlf`: the two bytes "\r\n"; a mismatch is an Error of kind CrLf. */
  function Crlf(input: seq<byte>): (r: IResult<seq<byte>>)
    ensures Advances(input, r)
    ensures r.Done? <==> [CR, NL] <= input
    ensures r.Done? ==> r == Done(input[2..], [CR, NL])
    ensures r.Incomplete? <==> input < [CR, NL]
    ensures r.Incomplete? ==> r.needed == Size(2)
    ensures r.Error? ==> r.kind == ErrorKind.CrLf
  {
    var t := Tag(input, [CR, NL]);
    if t.Error? then Error(ErrorKind.CrLf) else t
  }

  /**
   * nom `alt!(a | b)` for two alternatives applied to the same input: the
   * first result that is not an Error (an Incomplete stops the search too),
   * or Error(Alt) when both fail.
   */
  function Alt<T>(a: IResult<T>, b: IResult<T>): IResult<T> {
    if !a.Error? then a else if !b.Error? then b else Error(ErrorKind.Alt)
  }

  /** nom `add_return_error!(code, ...)`: an Error is re-tagged with code; Done and Incomplete pass through. */
  function AddReturnError<T>(code: ErrorKind, r: IResult<T>): IResult<T> {
    if r.Error? then Error(code) else r
  }

  predicate OccursAt(s: seq<byte>, pat: seq<byte>, k: nat) {
    k + |pat| <= |s| && s[k..k + |pat|] == pat
  }

  /** The first position at or after `from` where pat occurs in s. */
  function FindFrom(s: seq<byte>, pat: seq<byte>, from: nat): (r: Option<nat>)
    ensures r.Some? ==> from <= r.value && OccursAt(s, pat, r.value)
    ensures forall k: nat :: from <= k && (r.None? || k < r.value) ==> !OccursAt(s, pat, k)
    decreases |s| - from
  {
    if from + |pat| > |s| then None
    else if s[from..from + |pat|] == pat then Some(from)
    else FindFrom(s, pat, from + 1)
  }

  /**
   * nom `take_until_and_consume!(pat)`: everything before the first
   * occurrence of pat, with pat consumed as well. An input shorter than pat
   * is Incomplete; a longer one without pat is an Error.
   */
  function TakeUntilAndConsume(input: seq<byte>, pat: seq<byte>): (r: IResult<seq<byte>>)
    ensures Advances(input, r)
    ensures r.Incomplete? <==> |input| < |pat|
    ensures r.Incomplete? ==> r.needed == Size(|pat|)
    ensures r.Error? <==> |pat| <= |input| && forall k: nat :: !OccursAt(input, pat, k)
    ensures r.Error? ==> r.kind == ErrorKind.TakeUntilAndConsume
    ensures r.Done? ==> input == r.value + pat + r.rest && OccursAt(input, pat, |r.value|)
    ensures r.Done? ==> forall k: nat :: k < |r.value| ==> !OccursAt(input, pat, k)
  {
    if |pat| > |input| then Incomplete(Size(|pat|))
    else
      match FindFrom(input, pat, 0)
      case None => Error(ErrorKind.TakeUntilAndConsume)
      case Some(k) =>
        assert input == input[..k] + input[k..k + |pat|] + input[k + |pat|..];
        Done(input[k + |pat|..], input[..k])
  }

  /** The values p reads one after another from input, leaving rest. */
  ghost predicate Chain<T>(p: seq<byte> -> IResult<T>, input: seq<byte>, values: seq<T>, rest: seq<byte>)
    decreases |values|
  {
    if values == [] then rest == input
    else p(input).Done? && p(input).value == values[0] && Chain(p, p(input).rest, values[1..], rest)
  }

  /** Where `many1!` stops repeating: at the end of the input, or where p fails with Error or consumes nothing. */
  predicate Stuck<T>(p: seq<byte> -> IResult<T>, rest: seq<byte>) {
    rest == [] || p(rest).Error? || (p(rest).Done? && |p(rest).rest| == |rest|)
  }

  /**
   * nom `many1!(p)`: one required p, then p again while input remains and p
   * succeeds. The first p failing with Error is Error(Many1); a later Error
   * ends the repetition; an Incomplete, first or later, is the result.
   */
  function Many1<T>(p: seq<byte> -> IResult<T>, input: seq<byte>): (r: IResult<seq<T>>)
    requires forall s :: Advances(s, p(s))
    ensures Advances(input, r)
    ensures r.Error? <==> p(input).Error?
    ensures r.Error? ==> r.kind == ErrorKind.Many1
    ensures r.Done? ==> |r.value| >= 1 && Chain(p, input, r.value, r.rest) && Stuck(p, r.rest)
  {
    match p(input)
    case Error(_) => Error(ErrorKind.Many1)
    case Incomplete(n) => Incomplete(n)
    case Done(i, o) =>
      var r := ManyMore(p, input, i, [o]);
      assert r.Done? ==> r.value[1..] == r.value[|[o]|..];
      r
  }

  /** The loop of `many1!` after its first value: `start` is the input many1 was given. */
  function ManyMore<T>(p: seq<byte> -> IResult<T>, start: seq<byte>, input: seq<byte>, acc: seq<T>): (r: IResult<seq<T>>)
    requires forall s :: Advances(s, p(s))
    requires |input| <= |start|
    ensures !r.Error? && Advances(start, r)
    ensures r.Done? ==> |acc| <= |r.value| && r.value[..|acc|] == acc
    ensures r.Done? ==> Chain(p, input, r.value[|acc|..], r.rest) && Stuck(p, r.rest)
    decreases |input|
  {
    if input == [] then Done(input, acc)
    else
      match p(input)
      case Error(_) => Done(input, acc)
      case Incomplete(Unknown) => Incomplete(Unknown)
      case Incomplete(Size(n)) => Incomplete(Size(n + |start| - |input|))
      case Done(i, o) =>
        if |i| == |input| then Done(input, acc)
        else
          assert Advances(input, p(input));
          var r := ManyMore(p, start, i, acc + [o]);
          assert r.Done? ==> r.value[|acc|..][1..] == r.value[|acc + [o]|..];
          r
  }

  /** One turn of the `many1!` loop: a value read with progress is appended and the loop goes on after it. */
  lemma ManyMoreStep<T>(p: seq<byte> -> IResult<T>, start: seq<byte>, input: seq<byte>, acc: seq<T>)
    requires forall s :: Advances(s, p(s))
    requires |input| <= |start|
    requires p(input).Done? && |p(input).rest| < |input|
    ensures ManyMore(p, start, input, acc) == ManyMore(p, start, p(input).rest, acc + [p(input).value])
  {
  }

  /** The `many1!` loop ends, keeping what it has read, at the end of the input or where p fails with Error. */
  lemma ManyMoreStop<T>(p: seq<byte> -> IResult<T>, start: seq<byte>, input: seq<byte>, acc: seq<T>)
    requires forall s :: Advances(s, p(s))
    requires |input| <= |start|
    requires input == [] || p(input).Error?
    ensures ManyMore(p, start, input, acc) == Done(input, acc)
  {
  }

  /** A rule that succeeds always consumes something. */
  ghost predicate Progresses<T>(p: seq<byte> -> IResult<T>) {
    forall s :: p(s).Done? ==> |p(s).rest| < |s|
  }

  /** The `many1!` loop reads every value of a chain in order, then carries on after it. */
  lemma {:induction false} ManyMoreChain<T>(p: seq<byte> -> IResult<T>, start: seq<byte>, input: seq<byte>,
                                            values: seq<T>, rest: seq<byte>, acc: seq<T>)
    requires forall s :: Advances(s, p(s))
    requires Progresses(p)
    requires |input| <= |start|
    requires Chain(p, input, values, rest)
    ensures |rest| <= |input|
    ensures ManyMore(p, start, input, acc) == ManyMore(p, start, rest, acc + values)
    decreases |values|
  {
    if values == [] {
      assert acc + values == acc;
    } else {
      ManyMoreStep(p, start, input, acc);
      ManyMoreChain(p, start, p(input).rest, values[1..], rest, acc + [values[0]]);
      assert acc + [values[0]] + values[1..] == acc + values;
    }
  }

  /**
   * `many1!` over a non-empty chain that ends at the end of the input, or
   * where p fails with Error, returns exactly the chain's values.
   */
  lemma Many1Chain<T>(p: seq<byte> -> IResult<T>, input: seq<byte>, values: seq<T>, rest: seq<byte>)
    requires forall s :: Advances(s, p(s))
    requires Progresses(p)
    requires values != [] && Chain(p, input, values, rest)
    requires rest == [] || p(rest).Error?
    ensures Many1(p, input) == Done(rest, values)
  {
    var i := p(input).rest;
    ManyMoreChain(p, input, i, values[1..], rest, [values[0]]);
    ManyMoreStop(p, input, rest, [values[0]] + values[1..]);
    assert [values[0]] + values[1..] == values;
  }

  /**
   * `many1!` over a chain followed by input on which p is Incomplete is
   * Incomplete: the values read so far are not returned.
   */
  lemma Many1ChainIncomplete<T>(p: seq<byte> -> IResult<T>, input: seq<byte>, values: seq<T>, rest: seq<byte>)
    requires forall s :: Advances(s, p(s))
    requires Progresses(p)
    requires Chain(p, input, values, rest)
    requires rest != [] && p(rest).Incomplete?
    ensures Many1(p, input).Incomplete?
  {
    if values != [] {
      ManyMoreChain(p, input, p(input).rest, values[1..], rest, [values[0]]);
    }
  }
}
