/**
 * The few Python `str` operations the services rely on, restricted to ASCII:
 * `isspace`/`strip` (blankness), `lower`, `isupper`, `in` (substring),
 * `count` of one character, and the regular expression `(.)\1{4,}`.
 */
module Strings {

  /** Python's `str.isspace` on one ASCII character: tab, LF, VT, FF, CR, the
      four information separators 0x1C-0x1F, and space. */
  predicate IsSpace(c: char) {
    var n := c as int;
    n == 32 || 9 <= n <= 13 || 28 <= n <= 31
  }

  /** `not text or not text.strip()`: empty, or nothing but whitespace. */
  predicate IsBlank(s: string) {
    forall i :: 0 <= i < |s| ==> IsSpace(s[i])
  }

  predicate IsUpper(c: char) {
    'A' <= c <= 'Z'
  }

  function LowerChar(c: char): char {
    if IsUpper(c) then (c as int + 32) as char else c
  }

  /** Python's `str.lower` on ASCII text. */
  function Lower(s: string): (r: string)
    ensures |r| == |s|
    ensures forall i :: 0 <= i < |s| ==> !IsUpper(r[i])
  {
    seq(|s|, i requires 0 <= i < |s| => LowerChar(s[i]))
  }

  /** Python's `word in text`: `word` occurs as a contiguous substring. */
  predicate Contains(text: string, word: string)
    decreases |text|
  {
    word <= text || (|text| > 0 && Contains(text[1..], word))
  }

  /** Python's `text.count(c)` for a single character. */
  function CountChar(s: string, c: char): (n: nat)
    ensures n <= |s|
  {
    if |s| == 0 then 0 else CountChar(s[..|s| - 1], c) + (if s[|s| - 1] == c then 1 else 0)
  }

  /** `sum(1 for c in text if c.isupper())`. */
  function CountUpper(s: string): (n: nat)
    ensures n <= |s|
  {
    if |s| == 0 then 0 else CountUpper(s[..|s| - 1]) + (if IsUpper(s[|s| - 1]) then 1 else 0)
  }

  /** Five equal characters start at `i`, the first of which is not a newline
      (`.` in a Python pattern does not match a newline). */
  predicate RunAt(s: string, i: nat)
    requires i + 5 <= |s|
  {
    s[i] != '\n' && s[i + 1] == s[i] && s[i + 2] == s[i] && s[i + 3] == s[i] && s[i + 4] == s[i]
  }

  /** `re.search(r'(.)\1{4,}', text)` succeeds. */
  predicate HasRepeatedRun(s: string) {
    exists i: nat :: i + 5 <= |s| && RunAt(s, i)
  }
}
