/** Result types and text helpers shared by the models. */
module Prelude {

  datatype Option<+T> = None | Some(value: T)

  /** A source call either returns a value or raises one of its declared errors. */
  datatype Result<+T, +E> = Ok(value: T) | Err(error: E)

  /** Characters Python's `str.isspace` and `str.strip` treat as white space. */
  predicate IsSpace(c: char) {
    || '\t' <= c <= '\r'
    || '\U{1c}' <= c <= ' '
    || c == '\U{85}' || c == '\U{a0}' || c == '\U{1680}'
    || '\U{2000}' <= c <= '\U{200a}'
    || c == '\U{2028}' || c == '\U{2029}' || c == '\U{202f}' || c == '\U{205f}' || c == '\U{3000}'
  }

  /** Nothing is left of the text once it is stripped. */
  predicate Blank(s: string) {
    forall i :: 0 <= i < |s| ==> IsSpace(s[i])
  }

  /** `s[n:]`, which never fails: dropping past the end leaves nothing. */
  function Drop(s: string, n: nat): string {
    if n <= |s| then s[n..] else ""
  }

  /** The end of a slice of the first `n` of `length` elements. */
  function Clip(n: nat, length: nat): (r: nat)
    ensures r <= n && r <= length
  {
    if n <= length then n else length
  }

  function Power2(n: nat): nat {
    if n == 0 then 1 else 2 * Power2(n - 1)
  }
}
