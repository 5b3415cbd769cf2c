/** The string operations of the source that more than one module reads text with. */
module Texts {

  /** `p in text`. */
  predicate Contains(text: string, p: string) {
    exists k :: 0 <= k <= |text| && p <= text[k..]
  }

  /** `lstrip()`. */
  function TrimLeft(text: string, space: char -> bool): (r: string)
    ensures |r| <= |text|
  {
    if text != "" && space(text[0]) then TrimLeft(text[1..], space) else text
  }

  /** `rstrip()`. */
  function TrimRight(text: string, space: char -> bool): (r: string)
    ensures |r| <= |text|
  {
    if text != "" && space(text[|text| - 1]) then TrimRight(text[..|text| - 1], space) else text
  }

  /** `strip()`. */
  function Strip(text: string, space: char -> bool): (r: string)
    ensures |r| <= |text|
  {
    TrimRight(TrimLeft(text, space), space)
  }
}
