/**
 * `sanitize_text` (backend/app.py:18-24): trims text that is about to go into a
 * prompt or come back from the generator, cuts it to a maximum length and blanks
 * out ASCII control characters one for one.
 */
module Sanitizer {
  import opened PyText

  /** The default `max_len` of `sanitize_text`. */
  const DefaultMaxLen: nat := 800

  /** The regex class `[\x00-\x08\x0b-\x0c\x0e-\x1f]`: every ASCII control character
      except tab, line feed and carriage return. */
  predicate IsControl(c: char) {
    var n := c as int;
    0x00 <= n <= 0x08 || 0x0B <= n <= 0x0C || 0x0E <= n <= 0x1F
  }

  /** `re.sub(r'[\x00-\x08\x0b-\x0c\x0e-\x1f]', ' ', s)` */
  function BlankControls(s: string): (r: string)
    ensures |r| == |s|
    ensures forall i :: 0 <= i < |s| ==> !IsControl(r[i])
    ensures forall i :: 0 <= i < |s| && !IsControl(s[i]) ==> r[i] == s[i]
    ensures forall i :: 0 <= i < |s| && IsControl(s[i]) ==> r[i] == ' '
  {
    seq(|s|, i requires 0 <= i < |s| => if IsControl(s[i]) then ' ' else s[i])
  }

  /** `text[:max_len]` after the `len(text) > max_len` test. */
  function Truncate(s: string, maxLen: nat): (r: string)
    ensures |r| <= maxLen
    ensures r <= s
    ensures |s| <= maxLen ==> r == s
    ensures |s| > maxLen ==> |r| == maxLen
  {
    if |s| > maxLen then s[..maxLen] else s
  }

  function Min(a: nat, b: nat): nat {
    if a <= b then a else b
  }

  /** `sanitize_text(text, max_len)`; `None` stands for Python's `None`.
      Absent or empty input gives "". Otherwise the result has the length of the
      stripped text cut to `maxLen`, holds no control character, and agrees with the
      stripped text at every position except where that text had a control
      character, which became one space. */
  function Sanitize(text: Option<string>, maxLen: nat): (r: string)
    ensures text == None || text == Some("") ==> r == ""
    ensures |r| <= maxLen
    ensures forall i :: 0 <= i < |r| ==> !IsControl(r[i])
    ensures text.Some? ==> |r| == Min(|Strip(text.value)|, maxLen)
    ensures text.Some? ==> forall i :: 0 <= i < |r| ==>
              r[i] == (if IsControl(Strip(text.value)[i]) then ' ' else Strip(text.value)[i])
  {
    match text
    case None => ""
    case Some(s) =>
      if s == "" then ""
      else BlankControls(Truncate(Strip(s), maxLen))
  }

  /** The input that is absent, empty or only whitespace sanitizes to "". */
  lemma SanitizeBlank(text: Option<string>, maxLen: nat)
    requires text.Some? ==> IsBlank(text.value)
    ensures Sanitize(text, maxLen) == ""
  {
  }

  /** With the default cap, the stripped text is kept whole up to 800 characters
      and cut to exactly 800 beyond that. */
  lemma SanitizeDefaultCap(s: string)
    requires s != ""
    ensures |Strip(s)| <= 800 ==> |Sanitize(Some(s), DefaultMaxLen)| == |Strip(s)|
    ensures |Strip(s)| > 800 ==> |Sanitize(Some(s), DefaultMaxLen)| == 800
  {
  }

  /** Sanitizing never starts with whitespace that `strip()` would remove, apart
      from a space that stands in for a control character. */
  lemma SanitizeEdges(s: string, maxLen: nat)
    requires !IsBlank(s) && maxLen > 0
    ensures var r := Sanitize(Some(s), maxLen);
            |r| > 0 && (r[0] == ' ' ==> IsControl(Strip(s)[0]))
  {
  }
}
