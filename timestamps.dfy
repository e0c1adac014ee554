/**
 * Timestamps. The source keeps JavaScript `Date` / Python `datetime` values and writes them out
 * as ISO-8601 strings. Here a timestamp is a whole number of milliseconds, and its textual form
 * is its decimal representation: an injective encoding whose decoding is proved to invert it.
 */
module Timestamps {
  import opened Wrappers

  /** Milliseconds since the epoch. */
  type Time = nat

  /** Whole minutes are not enough: the source divides a millisecond difference by 60000. */
  function ElapsedMinutes(from: Time, to: Time): real {
    (to as real - from as real) / 60000.0
  }

  predicate IsDigit(c: char) {
    '0' <= c <= '9'
  }

  predicate AllDigits(s: string) {
    forall i :: 0 <= i < |s| ==> IsDigit(s[i])
  }

  function DigitChar(d: nat): (c: char)
    requires d < 10
    ensures IsDigit(c)
  {
    '0' + d as char
  }

  function DigitValue(c: char): (d: nat)
    requires IsDigit(c)
    ensures d < 10
  {
    (c - '0') as nat
  }

  /** The textual form of a timestamp (the model's stand-in for `toISOString()`). */
  function Format(t: Time): (s: string)
    ensures |s| > 0 && AllDigits(s)
    decreases t
  {
    if t < 10 then [DigitChar(t)] else Format(t / 10) + [DigitChar(t % 10)]
  }

  /** The value of a non-empty string of digits, read most significant digit first. */
  function DigitsValue(s: string): nat
    requires AllDigits(s)
    decreases |s|
  {
    if s == [] then 0 else DigitsValue(s[..|s| - 1]) * 10 + DigitValue(s[|s| - 1])
  }

  /** The model's stand-in for `new Date(text)`: fails on anything that `Format` cannot produce. */
  function Parse(s: string): Option<Time> {
    if s != [] && AllDigits(s) then Some(DigitsValue(s)) else None
  }

  lemma {:induction false} DigitsValueOfFormat(t: Time)
    ensures DigitsValue(Format(t)) == t
    decreases t
  {
    if t >= 10 {
      var s := Format(t);
      assert s[..|s| - 1] == Format(t / 10);
      DigitsValueOfFormat(t / 10);
    }
  }

  /** Reading a written timestamp back gives the same instant. */
  lemma ParseFormat(t: Time)
    ensures Parse(Format(t)) == Some(t)
  {
    DigitsValueOfFormat(t);
  }

  /** Two different instants are never written the same way. */
  lemma FormatInjective(t: Time, u: Time)
    requires Format(t) == Format(u)
    ensures t == u
  {
    ParseFormat(t);
    ParseFormat(u);
  }
}
