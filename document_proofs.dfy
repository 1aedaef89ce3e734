/**
 * What `parse_srt` and `parse_srt_from_slice` make of whole documents:
 * entries read back in order, trailing bytes ignored, and the two failure
 * outcomes at the boundary.
 */
module DocumentProofs {
  import opened Ascii
  import opened Decimal
  import opened NomTypes
  import Nom
  import opened Subtitles
  import opened Parser
  import opened SubTitleProofs

  /** An entry whose text survives a write and a read. */
  predicate Storable(e: SubTitle) {
    ValidText(e.text) && SingleNewlines(e.text)
  }

  /** One entry as `Display` writes it, followed by the "\n" that makes the blank line the grammar needs. */
  function Block(e: SubTitle): seq<byte> {
    DisplaySubTitle(e) + [NL]
  }

  /** The bytes f writes for each value, one after another. */
  function Concat<T>(vs: seq<T>, f: T -> seq<byte>): seq<byte> {
    if vs == [] then [] else f(vs[0]) + Concat(vs[1..], f)
  }

  /** A document: its entries' blocks one after another. */
  function Document(es: seq<SubTitle>): seq<byte> {
    Concat(es, Block)
  }

  lemma ConcatThen<T>(vs: seq<T>, f: T -> seq<byte>, tail: seq<byte>)
    requires vs != []
    ensures Concat(vs, f) + tail == f(vs[0]) + (Concat(vs[1..], f) + tail)
  {
    Assoc(f(vs[0]), Concat(vs[1..], f), tail);
  }

  lemma BlockRoundTrip(e: SubTitle, rest: seq<byte>)
    requires Storable(e)
    ensures ParseSub(Block(e) + rest) == Done(rest, e)
  {
    DisplaySubTitleRoundTrip(e, rest);
  }

  /** Every entry read consumes part of its input, so `many1!` always makes progress. */
  lemma ParseSubProgresses()
    ensures forall s :: Advances(s, ParseSub(s))
    ensures Nom.Progresses(ParseSub)
  {
  }

  /**
   * A rule that reads back what f writes for every value satisfying ok reads
   * a concatenation of such values one after another, in order, and stops
   * after the last.
   */
  lemma {:induction false} ConcatChain<T>(p: seq<byte> -> IResult<T>, f: T -> seq<byte>, ok: T -> bool,
                                          vs: seq<T>, tail: seq<byte>)
    requires forall v, rest :: ok(v) ==> p(f(v) + rest) == Done(rest, v)
    requires forall i :: 0 <= i < |vs| ==> ok(vs[i])
    ensures Nom.Chain(p, Concat(vs, f) + tail, vs, tail)
    decreases |vs|
  {
    if vs == [] {
      assert Concat(vs, f) + tail == tail;
    } else {
      var rest := Concat(vs[1..], f) + tail;
      ConcatThen(vs, f, tail);
      assert p(f(vs[0]) + rest) == Done(rest, vs[0]);
      ConcatChain(p, f, ok, vs[1..], tail);
    }
  }

  /** `parse_sub` reads the entries of a document one after another, in order, and stops after the last. */
  lemma DocumentChain(es: seq<SubTitle>, tail: seq<byte>)
    requires forall i :: 0 <= i < |es| ==> Storable(es[i])
    ensures Nom.Chain(ParseSub, Document(es) + tail, es, tail)
  {
    forall e, rest | Storable(e)
      ensures ParseSub(Block(e) + rest) == Done(rest, e)
    {
      BlockRoundTrip(e, rest);
    }
    ConcatChain(ParseSub, Block, Storable, es, tail);
  }

  /**
   * A document of one or more storable entries reads back as exactly those
   * entries, in order, whatever non-digit bytes follow it: trailing bytes
   * that do not start another entry are ignored.
   */
  lemma DocumentRoundTrip(es: seq<SubTitle>, tail: seq<byte>)
    requires es != [] && forall i :: 0 <= i < |es| ==> Storable(es[i])
    requires StopsRun(tail)
    ensures ParseSrt(Document(es) + tail) == Done(tail, Srt(es))
    ensures ParseSrtFromSlice(Document(es) + tail) == Ok(Srt(es))
  {
    IndexFailure(tail);
    DocumentThenError(es, tail);
  }

  /**
   * Reading stops silently at the first entry that does not parse: a
   * document followed by a malformed entry still succeeds, with the entries
   * before it and without a trace of the rest.
   */
  lemma DocumentThenError(es: seq<SubTitle>, tail: seq<byte>)
    requires es != [] && forall i :: 0 <= i < |es| ==> Storable(es[i])
    requires tail == [] || ParseSub(tail).Error?
    ensures ParseSrt(Document(es) + tail) == Done(tail, Srt(es))
    ensures ParseSrtFromSlice(Document(es) + tail) == Ok(Srt(es))
  {
    ParseSubProgresses();
    DocumentChain(es, tail);
    Nom.Many1Chain(ParseSub, Document(es) + tail, es, tail);
  }

  /**
   * A document cut off just after the index of a further entry is
   * Incomplete, not an Error, however many whole entries come before it.
   */
  lemma TruncatedDocument(es: seq<SubTitle>, d: seq<byte>)
    requires forall i :: 0 <= i < |es| ==> Storable(es[i])
    requires IsRun(d) && Value(d) < 0x1_0000_0000
    ensures ParseSrtFromSlice(Document(es) + d) == Err(ParseError.Incomplete)
  {
    ParseSubProgresses();
    IndexAlone(d);
    DocumentChain(es, d);
    Nom.Many1ChainIncomplete(ParseSub, Document(es) + d, es, d);
  }

  /** An empty buffer holds no entry: it is Incomplete, never an empty document. */
  lemma EmptyDocument()
    ensures ParseSrtFromSlice([]) == Err(ParseError.Incomplete)
  {
  }
}
