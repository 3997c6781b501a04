/** What the modules below share: results, bytes, machine words and ASCII case. */
module Prelude {
  datatype Option<+T> = None | Some(value: T)

  datatype Result<+T, +E> = Ok(value: T) | Err(error: E)

  type Byte = b: nat | b < 256

  const U64_MAX: nat := 0xFFFF_FFFF_FFFF_FFFF

  function LowerChar(c: char): char {
    if 'A' <= c <= 'Z' then (c as int + 32) as char else c
  }

  /** ASCII letters in lower case, everything else as it is. */
  function Lower(text: string): string {
    seq(|text|, i requires 0 <= i < |text| => LowerChar(text[i]))
  }

  /** A capital becomes the small letter at its place in the alphabet, and nothing else changes. */
  predicate InSmall(c: char, small: char) {
    if 'A' <= c <= 'Z' then 'a' <= small <= 'z' && small as int - 'a' as int == c as int - 'A' as int else small == c
  }

  lemma LowersLetterByLetter(text: string)
    ensures |Lower(text)| == |text| && forall i :: 0 <= i < |text| ==> InSmall(text[i], Lower(text)[i])
  {
  }

  /** A loop that builds a list while a recursive function takes it apart: one element kept, or dropped. */
  lemma KeepingOne<T>(kept: seq<T>, e: T, more: seq<T>)
    ensures kept + ([e] + more) == kept + [e] + more && kept + ([] + more) == kept + more
  {
  }

  lemma KeepingNone<T>(kept: seq<T>, more: seq<T>)
    ensures kept + ([] + more) == kept + more
  {
  }
}
