/** String helpers. */
module Utils {

  function Min(a: int, b: int): int { if a <= b then a else b }

  function Max(a: int, b: int): int { if a <= b then b else a }

  /** `text.substring(0, end)`: JavaScript clamps `end` into [0, |text|]. */
  function Substring(text: string, end: int): (r: string)
    ensures |r| == Max(0, Min(end, |text|)) && r == text[..|r|]
  {
    text[..Max(0, Min(end, |text|))]
  }

  /** Shortens `text` to its first `length` characters followed by "...",
      unless it already fits. */
  function TruncateText(text: string, length: int): (r: string)
    ensures |text| <= length ==> r == text
    ensures |text| > length ==>
      |r| == Max(0, length) + 3 && r[..|r| - 3] == text[..|r| - 3] && r[|r| - 3..] == "..."
  {
    if |text| <= length then text else Substring(text, length) + "..."
  }

  /** Truncating an already truncated text changes nothing. */
  lemma TruncateIdempotent(text: string, length: int)
    ensures TruncateText(TruncateText(text, length), length) == TruncateText(text, length)
  {
  }
}
