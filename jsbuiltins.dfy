/**
 * The pieces of the JavaScript runtime that the payment-matching engine
 * leans on: `undefined`/`null` as an Option, `Array.prototype.findIndex`
 * with an equality test, and `String.prototype.slice` with its handling of
 * negative and out-of-range indices.
 */
module JsBuiltins {

  /** A value that may be `undefined` or `null`. */
  datatype Option<+T> = None | Some(value: T) {
    /** `x || d` for a value whose present form is never falsy. */
    function GetOr(default: T): T {
      match this
      case Some(v) => v
      case None => default
    }
  }

  /** `s[i]` of a JavaScript array: `undefined` past either end. */
  function At<T>(s: seq<Option<T>>, i: int): Option<T> {
    if 0 <= i < |s| then s[i] else None
  }

  /** `s.findIndex(y => y == x)`: the first position holding x, or -1. */
  function FindIndex<T(==)>(s: seq<T>, x: T): (r: int)
    ensures -1 <= r < |s|
    ensures r == -1 <==> x !in s
    ensures 0 <= r ==> s[r] == x && x !in s[..r]
  {
    if s == [] then -1
    else if s[0] == x then 0
    else
      var k := FindIndex(s[1..], x);
      if k == -1 then -1
      else
        assert s[..k + 1] == [s[0]] + s[1..][..k];
        k + 1
  }

  /**
   * How `slice` resolves one of its arguments against a string of length
   * len: a negative index counts from the end, and the result is clamped
   * to 0 .. len.
   */
  function RelativeIndex(len: nat, i: int): (r: nat)
    ensures r <= len
  {
    if i < 0 then (if len + i < 0 then 0 else len + i)
    else if i > len then len
    else i
  }

  /** `s.slice(start, end)`; an empty string when end resolves before start. */
  function Slice(s: string, start: int, end: int): string {
    var from, to := RelativeIndex(|s|, start), RelativeIndex(|s|, end);
    if from < to then s[from..to] else ""
  }

  /** `s.slice(start)`: the end defaults to the length of s. */
  function SliceFrom(s: string, start: int): string {
    Slice(s, start, |s|)
  }
}
