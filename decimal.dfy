/**
 * Unsigned decimal numbers as byte strings: the value `uN::from_str` gives a
 * run of ASCII digits, and the `{}` / `{:0N}` formatting that `write!` uses
 * for unsigned integers.
 */
module Decimal {
  import opened Ascii

  function Pow10(k: nat): (r: nat)
    ensures r >= 1
  {
    if k == 0 then 1 else 10 * Pow10(k - 1)
  }

  /** The number a digit run denotes, most significant digit first; leading zeros are allowed. */
  function Value(s: seq<byte>): nat
    requires AllDigits(s)
  {
    if s == [] then 0 else Value(s[..|s| - 1]) * 10 + (s[|s| - 1] - Zero)
  }

  /** A digit run of k digits denotes less than 10^k. */
  lemma {:induction false} ValueBound(s: seq<byte>)
    requires AllDigits(s)
    ensures Value(s) < Pow10(|s|)
  {
    if s != [] {
      ValueBound(s[..|s| - 1]);
    }
  }

  /** Zeros in front of a digit run do not change its value. */
  lemma {:induction false} LeadingZeros(z: seq<byte>, s: seq<byte>)
    requires forall i :: 0 <= i < |z| ==> z[i] == Zero
    requires AllDigits(s)
    ensures AllDigits(z + s)
    ensures Value(z + s) == Value(s)
  {
    if s == [] {
      assert z + s == z;
      AllZeros(z);
    } else {
      var init := s[..|s| - 1];
      assert (z + s)[..|z + s| - 1] == z + init;
      LeadingZeros(z, init);
    }
  }

  lemma {:induction false} AllZeros(z: seq<byte>)
    requires forall i :: 0 <= i < |z| ==> z[i] == Zero
    ensures AllDigits(z) && Value(z) == 0
  {
    if z != [] {
      AllZeros(z[..|z| - 1]);
    }
  }

  /**
   * The shortest decimal form of n, as `{}` writes an unsigned integer:
   * one or more digits, no leading zero unless n is 0, denoting n.
   */
  function Digits(n: nat): (r: seq<byte>)
    ensures IsRun(r) && Value(r) == n
    ensures r[0] == Zero ==> n == 0
  {
    if n < 10 then [(Zero + n) as byte]
    else
      var d := Digits(n / 10) + [(Zero + n % 10) as byte];
      assert d[..|d| - 1] == Digits(n / 10);
      d
  }

  /** A number below 10^k has at most k digits (0 is written with one). */
  lemma {:induction false} DigitsWidth(n: nat, k: nat)
    requires 1 <= k && n < Pow10(k)
    ensures |Digits(n)| <= k
  {
    if n >= 10 {
      assert k >= 2;
      assert n / 10 < Pow10(k - 1);
      DigitsWidth(n / 10, k - 1);
    }
  }

  function Zeros(k: nat): (r: seq<byte>)
    ensures |r| == k && forall i :: 0 <= i < k ==> r[i] == Zero
  {
    seq(k, i => Zero)
  }

  /** `{:0w}`: pad a digit run on the left with zeros up to a MINIMUM width w; a longer run is kept whole. */
  function PadLeft(s: seq<byte>, w: nat): seq<byte>
  {
    if |s| < w then Zeros(w - |s|) + s else s
  }

  /**
   * A zero-padded field is w bytes when the number fits, widens instead of
   * truncating when it does not, and still denotes the same number.
   */
  lemma Padded(n: nat, w: nat)
    ensures var f := PadLeft(Digits(n), w);
      && |f| == (if |Digits(n)| < w then w else |Digits(n)|)
      && IsRun(f) && Value(f) == n
      && f[|f| - |Digits(n)|..] == Digits(n)
  {
    var d := Digits(n);
    if |d| < w {
      LeadingZeros(Zeros(w - |d|), d);
      assert (Zeros(w - |d|) + d)[w - |d|..] == d;
    }
  }

  /** A number below 10^w is written in exactly w bytes by `{:0w}`. */
  lemma PaddedWidth(n: nat, w: nat)
    requires 1 <= w && n < Pow10(w)
    ensures |PadLeft(Digits(n), w)| == w
  {
    DigitsWidth(n, w);
  }
}
